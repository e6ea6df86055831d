/** The header-key rule of Go's `net/textproto`, which `http.Header.Set`
    applies to every key it stores: `CanonicalMIMEHeaderKey`. A key made
    only of token characters (section 3.2.6 of RFC 7230) has its first
    letter and every letter after a '-' upper-cased and all other letters
    lower-cased; any other key is stored as given. */
module Textproto {

  /** A token character of section 3.2.6 of RFC 7230. */
  predicate IsTokenChar(c: char)
  {
    || ('a' <= c <= 'z') || ('A' <= c <= 'Z') || ('0' <= c <= '9')
    || c in "!#$%&'*+-.^_`|~"
  }

  predicate IsToken(s: string)
  {
    forall k :: 0 <= k < |s| ==> IsTokenChar(s[k])
  }

  /** ASCII upper case; every other character is left alone. */
  function Upper(c: char): (u: char)
    ensures 'a' <= c <= 'z' ==> 'A' <= u <= 'Z' && u as int == c as int - 32
    ensures !('a' <= c <= 'z') ==> u == c
  {
    if 'a' <= c <= 'z' then (c as int - 32) as char else c
  }

  /** ASCII lower case; every other character is left alone. */
  function Lower(c: char): (l: char)
    ensures 'A' <= c <= 'Z' ==> 'a' <= l <= 'z' && l as int == c as int + 32
    ensures !('A' <= c <= 'Z') ==> l == c
  {
    if 'A' <= c <= 'Z' then (c as int + 32) as char else c
  }

  /** Position `k` of a key starts a word: the first, or just after a '-'. */
  predicate WordStart(s: string, k: int)
    requires 0 <= k < |s|
  {
    k == 0 || s[k - 1] == '-'
  }

  /** `a` and `b` differ at most in the case of ASCII letters. */
  predicate SameUpToCase(a: string, b: string)
  {
    |a| == |b| && forall k :: 0 <= k < |a| ==> Lower(a[k]) == Lower(b[k])
  }

  /** The character a token key has at `k` once canonical. */
  function CanonicalChar(s: string, k: int): (c: char)
    requires 0 <= k < |s|
    ensures Lower(c) == Lower(s[k])
  {
    if WordStart(s, k) then Upper(s[k]) else Lower(s[k])
  }

  /** `textproto.CanonicalMIMEHeaderKey(s)`. */
  function CanonicalKey(s: string): (r: string)
    ensures |r| == |s|
    ensures !IsToken(s) ==> r == s
    ensures SameUpToCase(r, s)
    ensures IsToken(s) ==> forall k :: 0 <= k < |s| ==>
      !('a' <= r[k] <= 'z' && WordStart(s, k)) && !('A' <= r[k] <= 'Z' && !WordStart(s, k))
  {
    if IsToken(s) then seq(|s|, k requires 0 <= k < |s| => CanonicalChar(s, k)) else s
  }

  /** Case mapping keeps a character a token character. */
  lemma CaseKeepsToken(a: char, b: char)
    requires IsTokenChar(a) && Lower(a) == Lower(b)
    ensures IsTokenChar(b)
  {
  }

  /** Characters equal up to case have the same upper case, and only '-'
      matches '-'. */
  lemma CaseFold(a: char, b: char)
    requires Lower(a) == Lower(b)
    ensures Upper(a) == Upper(b)
    ensures a == '-' <==> b == '-'
  {
  }

  lemma SameUpToCaseToken(a: string, b: string)
    requires IsToken(a) && SameUpToCase(a, b)
    ensures IsToken(b)
  {
    forall k | 0 <= k < |b| ensures IsTokenChar(b[k]) {
      CaseKeepsToken(a[k], b[k]);
    }
  }

  /** Token keys that differ only in the case of letters are stored under
      the same canonical key. */
  lemma CanonicalKeyIgnoresCase(a: string, b: string)
    requires IsToken(a) && SameUpToCase(a, b)
    ensures CanonicalKey(a) == CanonicalKey(b)
  {
    SameUpToCaseToken(a, b);
    var ra, rb := CanonicalKey(a), CanonicalKey(b);
    forall k | 0 <= k < |a| ensures ra[k] == rb[k] {
      CaseFold(a[k], b[k]);
      if k > 0 { CaseFold(a[k - 1], b[k - 1]); }
    }
  }

  /** A canonical key is its own canonical key. */
  lemma CanonicalKeyIdempotent(s: string)
    ensures CanonicalKey(CanonicalKey(s)) == CanonicalKey(s)
  {
    if IsToken(s) {
      CanonicalKeyIgnoresCase(s, CanonicalKey(s));
    }
  }

  /** "Cookie" is its own canonical key. */
  lemma CookieCanonical()
    ensures CanonicalKey("Cookie") == "Cookie"
  {
    var c := "Cookie";
    assert IsTokenChar(c[0]) && IsTokenChar(c[1]) && IsTokenChar(c[2]);
    assert IsTokenChar(c[3]) && IsTokenChar(c[4]) && IsTokenChar(c[5]);
    var r := CanonicalKey(c);
    assert r[0] == CanonicalChar(c, 0) == 'C';
    assert forall k :: 1 <= k < 6 ==> r[k] == CanonicalChar(c, k) == Lower(c[k]) == c[k];
    assert r == c;
  }

  /** Whatever its case, a `cookie` key is stored as "Cookie". */
  lemma CookieKey(s: string)
    requires SameUpToCase(s, "cookie")
    ensures CanonicalKey(s) == "Cookie"
  {
    var c := "Cookie";
    assert IsTokenChar(c[0]) && IsTokenChar(c[1]) && IsTokenChar(c[2]);
    assert IsTokenChar(c[3]) && IsTokenChar(c[4]) && IsTokenChar(c[5]);
    assert SameUpToCase(c, s);
    CanonicalKeyIgnoresCase(c, s);
    CookieCanonical();
  }
}
