/** The parts of Go's `strings` package the repository relies on:
    `Index`/`Contains`, `Split`, `TrimSpace`, `TrimSuffix`.
    A Go string is modelled as its sequence of runes. */
module Strings {
  import opened Errors

  /** `t` occurs in `s` starting at index `i`. */
  predicate Occurs(s: string, t: string, i: int)
  {
    0 <= i && i + |t| <= |s| && s[i..i + |t|] == t
  }

  lemma OccursShift(s: string, t: string)
    requires |s| > 0
    ensures forall j :: 1 <= j ==> (Occurs(s, t, j) <==> Occurs(s[1..], t, j - 1))
  {
    forall j | 1 <= j
      ensures Occurs(s, t, j) <==> Occurs(s[1..], t, j - 1)
    {
      if j + |t| <= |s| {
        assert s[1..][j - 1..j - 1 + |t|] == s[j..j + |t|];
      }
    }
  }

  /** `strings.Index(s, t)`: the first position at which `t` occurs in `s`. */
  function Index(s: string, t: string): (r: Option<nat>)
    ensures r.Some? ==> Occurs(s, t, r.value)
    ensures r.Some? ==> forall j :: 0 <= j < r.value ==> !Occurs(s, t, j)
    ensures r.None? ==> forall j :: !Occurs(s, t, j)
    decreases |s|
  {
    if |s| < |t| then None
    else if s[..|t|] == t then Some(0)
    else
      OccursShift(s, t);
      match Index(s[1..], t)
      case None => None
      case Some(k) => Some(k + 1)
  }

  /** `strings.Contains(s, t)`. */
  predicate Contains(s: string, t: string)
  {
    Index(s, t).Some?
  }

  lemma OccursContains(s: string, t: string, i: int)
    requires Occurs(s, t, i)
    ensures Contains(s, t)
  {
  }

  /** One differing rune rules out an occurrence. */
  lemma MismatchNotOccurs(s: string, t: string, i: int, k: nat)
    requires k < |t| && 0 <= i + k < |s|
    requires s[i + k] != t[k]
    ensures !Occurs(s, t, i)
  {
  }

  /** A string that starts with `t` contains it. */
  lemma ContainsPrefix(t: string, rest: string)
    ensures Contains(t + rest, t)
  {
    assert Occurs(t + rest, t, 0);
  }

  lemma OccursInPrefix(s: string, t: string, i: nat, j: int)
    requires i <= |s|
    requires Occurs(s[..i], t, j)
    ensures Occurs(s, t, j)
  {
    assert s[..i][j..j + |t|] == s[j..j + |t|];
  }

  lemma OccursInSuffix(s: string, t: string, i: nat, j: int)
    requires i <= |s|
    requires Occurs(s[i..], t, j)
    ensures Occurs(s, t, i + j)
  {
    assert s[i..][j..j + |t|] == s[i + j..i + j + |t|];
  }

  /** The text before the first occurrence of `sep` does not contain it. */
  lemma FirstPieceClean(s: string, sep: string, i: nat)
    requires |sep| > 0
    requires Index(s, sep) == Some(i)
    ensures !Contains(s[..i], sep)
  {
    if Contains(s[..i], sep) {
      OccursInPrefix(s, sep, i, Index(s[..i], sep).value);
    }
  }

  /** The inverse of `Split`: the parts with `sep` between consecutive ones. */
  function Join(parts: seq<string>, sep: string): (s: string)
  {
    if |parts| == 0 then ""
    else if |parts| == 1 then parts[0]
    else parts[0] + sep + Join(parts[1..], sep)
  }

  /** `strings.Split(s, sep)` for a non-empty separator: the pieces of `s`
      around each occurrence of `sep`, found left to right. */
  function Split(s: string, sep: string): (r: seq<string>)
    requires |sep| > 0
    ensures |r| >= 1
    ensures Join(r, sep) == s
    ensures forall k :: 0 <= k < |r| ==> !Contains(r[k], sep)
    ensures Contains(s, sep) <==> |r| >= 2
    ensures Contains(s, sep) ==> r[0] == s[..Index(s, sep).value]
    ensures !Contains(s, sep) ==> r == [s]
    decreases |s|
  {
    match Index(s, sep)
    case None => [s]
    case Some(i) =>
      var rest := Split(s[i + |sep|..], sep);
      assert s == s[..i] + sep + s[i + |sep|..] by {
        assert s[i..i + |sep|] == sep;
      }
      FirstPieceClean(s, sep, i);
      [s[..i]] + rest
  }

  /** The piece of `s` after its first `sep`, up to the next one:
      `strings.Split(s, sep)[1]`. */
  function SecondField(s: string, sep: string): (r: string)
    requires |sep| > 0
    requires Contains(s, sep)
    ensures r == Split(s, sep)[1]
    ensures !Contains(r, sep)
  {
    var i := Index(s, sep).value;
    SplitSecond(s, sep, i);
    SplitFirst(s[i + |sep|..], sep);
    FirstPiece(s[i + |sep|..], sep)
  }

  lemma SplitSecond(s: string, sep: string, i: nat)
    requires |sep| > 0
    requires Index(s, sep) == Some(i)
    ensures |Split(s, sep)| >= 2
    ensures Split(s, sep)[1] == Split(s[i + |sep|..], sep)[0]
  {
  }

  /** `s` up to its first `sep`, or all of `s`. */
  function FirstPiece(s: string, sep: string): (r: string)
  {
    match Index(s, sep)
    case None => s
    case Some(j) => s[..j]
  }

  lemma SplitFirst(s: string, sep: string)
    requires |sep| > 0
    ensures Split(s, sep)[0] == FirstPiece(s, sep)
  {
  }

  /** Where the second field lies in `s`: right after the first `sep`, and
      running to the end of `s` or to the next `sep`. */
  lemma SecondFieldPosition(s: string, sep: string)
    requires |sep| > 0
    requires Contains(s, sep)
    ensures var i, r := Index(s, sep).value, SecondField(s, sep);
      && i + |sep| + |r| <= |s|
      && s[i + |sep|..i + |sep| + |r|] == r
      && (i + |sep| + |r| == |s| || Occurs(s, sep, i + |sep| + |r|))
  {
    SecondFieldIsPiece(s, sep);
    FirstPieceFrom(s, sep, Index(s, sep).value + |sep|, SecondField(s, sep));
  }

  lemma SecondFieldIsPiece(s: string, sep: string)
    requires |sep| > 0 && Contains(s, sep)
    ensures SecondField(s, sep) == FirstPiece(s[Index(s, sep).value + |sep|..], sep)
  {
  }

  /** The first piece `f` of `s[p..]` runs from `p` to the end of `s` or to
      the next `sep`. */
  lemma FirstPieceFrom(s: string, sep: string, p: nat, f: string)
    requires p <= |s| && f == FirstPiece(s[p..], sep)
    ensures p + |f| <= |s|
    ensures s[p..p + |f|] == f
    ensures p + |f| == |s| || Occurs(s, sep, p + |f|)
  {
    var after := s[p..];
    match Index(after, sep)
    case None =>
      assert s[p..p + |after|] == after;
    case Some(j) =>
      assert s[p..p + j] == after[..j];
      OccursInSuffix(s, sep, p, j);
  }

  /** Go's `unicode.IsSpace`. */
  predicate IsSpace(c: char)
  {
    || ('\t' <= c <= '\r')
    || c == ' '
    || c == '\U{85}'
    || c == '\U{A0}'
    || c == '\U{1680}'
    || ('\U{2000}' <= c <= '\U{200A}')
    || c == '\U{2028}'
    || c == '\U{2029}'
    || c == '\U{202F}'
    || c == '\U{205F}'
    || c == '\U{3000}'
  }

  /** The index of the first rune at or after `i` that is not white space,
      or `|s|`. */
  function SkipSpace(s: string, i: nat): (e: nat)
    requires i <= |s|
    ensures i <= e <= |s|
    ensures forall k :: i <= k < e ==> IsSpace(s[k])
    ensures e < |s| ==> !IsSpace(s[e])
    decreases |s| - i
  {
    if i == |s| || !IsSpace(s[i]) then i else SkipSpace(s, i + 1)
  }

  /** The index just past the last rune before `j`, and not before `lo`,
      that is not white space, or `lo`. */
  function SkipSpaceBack(s: string, lo: nat, j: nat): (e: nat)
    requires lo <= j <= |s|
    ensures lo <= e <= j
    ensures forall k :: e <= k < j ==> IsSpace(s[k])
    ensures e > lo ==> !IsSpace(s[e - 1])
    decreases j
  {
    if j == lo || !IsSpace(s[j - 1]) then j else SkipSpaceBack(s, lo, j - 1)
  }

  /** `strings.TrimSpace(s)`: `s` without its leading and trailing white space. */
  function TrimSpace(s: string): (r: string)
    ensures var i := SkipSpace(s, 0);
      && i + |r| <= |s|
      && s[i..i + |r|] == r
      && (forall k :: 0 <= k < i ==> IsSpace(s[k]))
      && (forall k :: i + |r| <= k < |s| ==> IsSpace(s[k]))
    ensures |r| > 0 ==> !IsSpace(r[0]) && !IsSpace(r[|r| - 1])
  {
    var i := SkipSpace(s, 0);
    s[i..SkipSpaceBack(s, i, |s|)]
  }

  /** A string that neither starts nor ends with white space is unchanged
      by trimming. */
  lemma TrimSpaceKeeps(s: string)
    requires |s| > 0 ==> !IsSpace(s[0]) && !IsSpace(s[|s| - 1])
    ensures TrimSpace(s) == s
  {
    if |s| > 0 {
      assert SkipSpace(s, 0) == 0;
      assert SkipSpaceBack(s, 0, |s|) == |s|;
      assert s[0..|s|] == s;
    }
  }

  /** Trimming is idempotent: a trimmed string has no white space to lose. */
  lemma TrimSpaceIdempotent(s: string)
    ensures TrimSpace(TrimSpace(s)) == TrimSpace(s)
  {
    TrimSpaceKeeps(TrimSpace(s));
  }

  predicate HasSuffix(s: string, suffix: string)
  {
    |suffix| <= |s| && s[|s| - |suffix|..] == suffix
  }

  /** `strings.TrimSuffix(s, suffix)`: drops one copy of `suffix` if present. */
  function TrimSuffix(s: string, suffix: string): (r: string)
    ensures HasSuffix(s, suffix) ==> r + suffix == s
    ensures !HasSuffix(s, suffix) ==> r == s
  {
    if HasSuffix(s, suffix) then s[..|s| - |suffix|] else s
  }
}
