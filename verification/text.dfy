/**
 * ASCII text primitives standing in for the JavaScript string operations the
 * application uses: `toLowerCase`, `includes`, `startsWith`, `replace` with a
 * string pattern, the character classes of its regular expressions, and
 * `String(n)` / `parseInt` on integers.
 *
 * Strings are sequences of `char`; lower-casing touches only `A`-`Z`, and a
 * string's length is its number of `char`s (not UTF-16 code units).
 */
module Text {
  import opened Wrappers

  predicate IsDigit(c: char) { '0' <= c <= '9' }
  predicate IsUpper(c: char) { 'A' <= c <= 'Z' }
  predicate IsLower(c: char) { 'a' <= c <= 'z' }

  /** The class `[a-zA-Z0-9_]`. */
  predicate IsWordChar(c: char) { IsUpper(c) || IsLower(c) || IsDigit(c) || c == '_' }

  /** The class `[0-9.]`. */
  predicate IsDigitOrDot(c: char) { IsDigit(c) || c == '.' }

  // ---------------------------------------------------------------------------
  // Case mapping

  function LowerChar(c: char): (r: char)
    ensures IsUpper(c) ==> IsLower(r)
    ensures !IsUpper(c) ==> r == c
    ensures !IsUpper(r)
  {
    if IsUpper(c) then (c as int - 'A' as int + 'a' as int) as char else c
  }

  function UpperChar(c: char): (r: char)
    ensures IsLower(c) ==> IsUpper(r)
    ensures !IsLower(c) ==> r == c
  {
    if IsLower(c) then (c as int - 'a' as int + 'A' as int) as char else c
  }

  /** `toLowerCase` restricted to ASCII letters. */
  function Lower(s: string): (r: string)
    ensures |r| == |s|
    ensures forall i :: 0 <= i < |s| ==> r[i] == LowerChar(s[i])
  {
    if s == [] then [] else [LowerChar(s[0])] + Lower(s[1..])
  }

  /** `toUpperCase` restricted to ASCII letters. */
  function Upper(s: string): (r: string)
    ensures |r| == |s|
    ensures forall i :: 0 <= i < |s| ==> r[i] == UpperChar(s[i])
  {
    if s == [] then [] else [UpperChar(s[0])] + Upper(s[1..])
  }

  /** Lower-casing forgets the case a string was written in. */
  lemma LowerOfUpper(s: string)
    ensures Lower(Upper(s)) == Lower(s)
  {
    var a, b := Lower(Upper(s)), Lower(s);
    forall i | 0 <= i < |s| ensures a[i] == b[i] {
      var c := s[i];
      if IsLower(c) {
        assert UpperChar(c) as int == c as int - 32;
      }
    }
  }

  // ---------------------------------------------------------------------------
  // Substrings

  /** `p` occurs in `s` starting at index `i`. */
  predicate OccursAt(s: string, p: string, i: nat)
  {
    i + |p| <= |s| && s[i..i + |p|] == p
  }

  /** The first index at or after `k` where `p` occurs in `s` (`indexOf(p, k)`). */
  function IndexFrom(s: string, p: string, k: nat): (r: Option<nat>)
    ensures r.Some? ==> k <= r.value && OccursAt(s, p, r.value)
    ensures r.Some? ==> forall j :: k <= j < r.value ==> !OccursAt(s, p, j)
    ensures r.None? ==> forall j :: k <= j ==> !OccursAt(s, p, j)
    decreases |s| - k
  {
    if k + |p| > |s| then None
    else if s[k..k + |p|] == p then Some(k)
    else IndexFrom(s, p, k + 1)
  }

  /** `s.indexOf(p)`, with `None` for -1. */
  function IndexOf(s: string, p: string): Option<nat>
  {
    IndexFrom(s, p, 0)
  }

  /** `s.includes(p)`. */
  predicate Contains(s: string, p: string)
  {
    IndexOf(s, p).Some?
  }

  /** Every string includes the empty string. */
  lemma ContainsEmpty(s: string)
    ensures Contains(s, "")
  {
    assert OccursAt(s, "", 0);
  }

  /** `p` is first found right after a prefix in which its first character does not appear. */
  lemma IndexOfAfterPlainPrefix(prefix: string, p: string, suffix: string)
    requires p != [] && forall i :: 0 <= i < |prefix| ==> prefix[i] != p[0]
    ensures IndexOf(prefix + p + suffix, p) == Some(|prefix|)
  {
    var s := prefix + p + suffix;
    assert s[|prefix|..|prefix| + |p|] == p;
    assert OccursAt(s, p, |prefix|);
    forall j | 0 <= j < |prefix| ensures !OccursAt(s, p, j) {
      assert s[j] == prefix[j];
    }
  }

  /** A string that includes `p` holds the first character of `p` somewhere. */
  lemma ContainsFirstChar(s: string, p: string)
    requires p != []
    ensures Contains(s, p) ==> exists i :: 0 <= i < |s| && s[i] == p[0]
  {
    if Contains(s, p) {
      var i := IndexOf(s, p).value;
      assert s[i..i + |p|][0] == p[0];
      assert s[i] == p[0];
    }
  }

  /** `s.startsWith(p)`. */
  predicate StartsWith(s: string, p: string)
  {
    |p| <= |s| && s[..|p|] == p
  }

  /**
   * The text a replacement string `v` stands for in `String.prototype.replace`
   * (GetSubstitution in ECMA-262): `$$` is one `$`, `$&` the matched text,
   * `` $` `` the text before the match and `$'` the text after it. A string
   * pattern has no capture groups, so `$1`, `$<` and any other `$` stay as written.
   */
  function Expand(v: string, before: string, matched: string, after: string): (r: string)
    decreases |v|
  {
    if v == [] then []
    else if v[0] == '$' && |v| >= 2 && v[1] == '$' then "$" + Expand(v[2..], before, matched, after)
    else if v[0] == '$' && |v| >= 2 && v[1] == '&' then matched + Expand(v[2..], before, matched, after)
    else if v[0] == '$' && |v| >= 2 && v[1] == '`' then before + Expand(v[2..], before, matched, after)
    else if v[0] == '$' && |v| >= 2 && v[1] == '\'' then after + Expand(v[2..], before, matched, after)
    else [v[0]] + Expand(v[1..], before, matched, after)
  }

  /** A replacement without `$` is inserted exactly as written. */
  lemma {:induction false} ExpandPlain(v: string, before: string, matched: string, after: string)
    requires forall i :: 0 <= i < |v| ==> v[i] != '$'
    ensures Expand(v, before, matched, after) == v
    decreases |v|
  {
    if v != [] {
      assert v[0] != '$';
      ExpandPlain(v[1..], before, matched, after);
      assert v == [v[0]] + v[1..];
    }
  }

  /** Each of the four patterns on its own. */
  lemma ExpandPatterns(before: string, matched: string, after: string)
    ensures Expand("$$", before, matched, after) == "$"
    ensures Expand("$&", before, matched, after) == matched
    ensures Expand("$`", before, matched, after) == before
    ensures Expand("$'", before, matched, after) == after
  {
    assert "$$"[2..] == [] && "$&"[2..] == [] && "$`"[2..] == [] && "$'"[2..] == [];
  }

  /**
   * `s.replace(p, v)` with a string pattern: only the first occurrence is
   * replaced, by `v` with its `$` patterns expanded; without an occurrence
   * the string is returned unchanged.
   */
  function ReplaceFirst(s: string, p: string, v: string): (r: string)
    ensures !Contains(s, p) ==> r == s
    ensures Contains(s, p) ==>
      var i := IndexOf(s, p).value;
      && r == s[..i] + Expand(v, s[..i], p, s[i + |p|..]) + s[i + |p|..]
      && forall j: nat :: j < i ==> !OccursAt(s, p, j)
  {
    match IndexOf(s, p)
    case None => s
    case Some(i) => s[..i] + Expand(v, s[..i], p, s[i + |p|..]) + s[i + |p|..]
  }

  // ---------------------------------------------------------------------------
  // Character classes

  /** `/^[a-zA-Z0-9_]+$/.test(s)` without the non-emptiness: every char is a word char. */
  function AllWordChars(s: string): (r: bool)
    ensures r <==> forall i :: 0 <= i < |s| ==> IsWordChar(s[i])
  {
    if s == [] then true else IsWordChar(s[0]) && AllWordChars(s[1..])
  }

  /** `/[A-Z]/.test(s)`. */
  function HasUpper(s: string): (r: bool)
    ensures r <==> exists i :: 0 <= i < |s| && IsUpper(s[i])
  {
    if s == [] then false else IsUpper(s[0]) || HasUpper(s[1..])
  }

  /** `/[0-9]/.test(s)`. */
  function HasDigit(s: string): (r: bool)
    ensures r <==> exists i :: 0 <= i < |s| && IsDigit(s[i])
  {
    if s == [] then false else IsDigit(s[0]) || HasDigit(s[1..])
  }

  /** `/[0-9.]/.test(s)`. */
  function HasDigitOrDot(s: string): (r: bool)
    ensures r <==> exists i :: 0 <= i < |s| && IsDigitOrDot(s[i])
  {
    if s == [] then false else IsDigitOrDot(s[0]) || HasDigitOrDot(s[1..])
  }

  // ---------------------------------------------------------------------------
  // Integers as decimal text

  function DigitChar(d: nat): (c: char)
    requires d < 10
    ensures IsDigit(c)
  {
    ('0' as int + d) as char
  }

  function DigitValue(c: char): (d: nat)
    requires IsDigit(c)
    ensures d < 10 && DigitChar(d) == c
  {
    c as int - '0' as int
  }

  /** `String(n)` for a non-negative integer: its decimal digits, no leading zero. */
  function NatToString(n: nat): (r: string)
    ensures |r| >= 1
    ensures forall i :: 0 <= i < |r| ==> IsDigit(r[i])
    ensures |r| > 1 ==> r[0] != '0'
  {
    if n < 10 then [DigitChar(n)] else NatToString(n / 10) + [DigitChar(n % 10)]
  }

  /** `parseInt(s, 10)` for a string made only of decimal digits. */
  function ParseNat(s: string): (n: nat)
    requires forall i :: 0 <= i < |s| ==> IsDigit(s[i])
  {
    if s == [] then 0 else ParseNat(s[..|s| - 1]) * 10 + DigitValue(s[|s| - 1])
  }

  /** Reading back the decimal text of `n` yields `n`. */
  lemma {:induction false} ParseNatToString(n: nat)
    ensures ParseNat(NatToString(n)) == n
  {
    if n >= 10 {
      var s := NatToString(n);
      assert s[..|s| - 1] == NatToString(n / 10);
      ParseNatToString(n / 10);
    }
  }

  /** `String(n)` for an integer. */
  function IntToString(n: int): (r: string)
    ensures n >= 0 ==> r == NatToString(n)
    ensures n < 0 ==> r == "-" + NatToString(-n)
    ensures forall i :: 0 <= i < |r| ==> IsDigit(r[i]) || r[i] == '-'
  {
    if n < 0 then "-" + NatToString(-n) else NatToString(n)
  }

  /** The printed form of `n` starts with `-` exactly when `n` is negative. */
  lemma IntToStringSign(n: int)
    ensures IntToString(n)[0] == '-' <==> n < 0
  {
    if n >= 0 {
      assert IsDigit(NatToString(n)[0]);
    }
  }

  /** `parseInt(s, 10)` for an optional `-` followed by decimal digits. */
  function ParseInt(s: string): int
    requires forall i :: (if |s| > 0 && s[0] == '-' then 1 else 0) <= i < |s| ==> IsDigit(s[i])
  {
    if |s| > 0 && s[0] == '-' then -(ParseNat(s[1..]) as int) else ParseNat(s)
  }

  /** Reading back the decimal text of any integer yields that integer. */
  lemma ParseIntToString(n: int)
    ensures ParseInt(IntToString(n)) == n
  {
    IntToStringSign(n);
    if n < 0 {
      assert IntToString(n)[1..] == NatToString(-n);
      ParseNatToString(-n);
    } else {
      ParseNatToString(n);
    }
  }

  /** JavaScript `msg || fallback` on a string: the empty string is falsy. */
  function OrElse(msg: string, fallback: string): (r: string)
    ensures msg != "" ==> r == msg
    ensures msg == "" ==> r == fallback
  {
    if msg == "" then fallback else msg
  }
}
