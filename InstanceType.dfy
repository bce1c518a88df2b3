/** The regular expression `(.+)\.([0-9]*x?[a-z]+$)` that the three copies of
    `familyNormalizeFactor` use to split "<family>.<size>", under Go's
    `regexp` semantics: leftmost match, `.` not matching a newline, `$` only at
    the end of the text, and `FindStringSubmatch` returning both groups. */
module InstanceType {
  import opened Common
  import AwsUtils

  predicate IsDigit(c: char) { '0' <= c <= '9' }
  predicate IsLower(c: char) { 'a' <= c <= 'z' }

  /** The language of `[0-9]*x?[a-z]+`, read off the expression as written. */
  ghost predicate SizePattern(t: string)
  {
    exists i, j :: SizeParts(t, i, j)
  }

  /** `t[..i]` matches `[0-9]*`, `t[i..j]` matches `x?` and `t[j..]` matches `[a-z]+`. */
  ghost predicate SizeParts(t: string, i: int, j: int)
  {
    0 <= i <= j < |t|
    && (forall k :: 0 <= k < i ==> IsDigit(t[k]))
    && (j == i || (j == i + 1 && t[i] == 'x'))
    && (forall k :: j <= k < |t| ==> IsLower(t[k]))
  }

  /** End of the run of decimal digits that starts at `i`. */
  function DigitsEnd(t: string, i: nat): (n: nat)
    requires i <= |t|
    ensures i <= n <= |t|
    ensures forall k :: i <= k < n ==> IsDigit(t[k])
    ensures n < |t| ==> !IsDigit(t[n])
    decreases |t| - i
  {
    if i < |t| && IsDigit(t[i]) then DigitsEnd(t, i + 1) else i
  }

  /** Every character from `i` on is a lowercase letter. */
  predicate LowerFrom(t: string, i: nat)
    requires i <= |t|
    decreases |t| - i
  {
    i == |t| || (IsLower(t[i]) && LowerFrom(t, i + 1))
  }

  lemma {:induction false} LowerFromAll(t: string, i: nat)
    requires i <= |t|
    ensures LowerFrom(t, i) <==> forall k :: i <= k < |t| ==> IsLower(t[k])
    decreases |t| - i
  {
    if i < |t| {
      LowerFromAll(t, i + 1);
    }
  }

  /** Digits, then one or more lowercase letters, and nothing else. */
  predicate IsSizeToken(t: string)
  {
    var n := DigitsEnd(t, 0);
    n < |t| && LowerFrom(t, n)
  }

  /** The optional `x` adds nothing: since `x` is itself a lowercase letter,
      `[0-9]*x?[a-z]+` and `[0-9]*[a-z]+` denote the same strings. */
  lemma SizeTokenIsSizePattern(t: string)
    ensures IsSizeToken(t) <==> SizePattern(t)
  {
    var n := DigitsEnd(t, 0);
    LowerFromAll(t, n);
    if IsSizeToken(t) {
      assert SizeParts(t, n, n);
    }
    if SizePattern(t) {
      var i, j :| SizeParts(t, i, j);
      assert !IsDigit(t[i]);
      assert n == i;
    }
  }

  /** The expression matches `s` with group 1 = `s[p..d]` and the escaped dot at
      `d`: `.+` is one or more non-newline characters and group 2 runs to the end. */
  ghost predicate MatchAt(s: string, p: int, d: int)
  {
    0 <= p < d < |s| && s[d] == '.'
    && (forall k :: p <= k < d ==> s[k] != '\n')
    && SizePattern(s[d + 1..])
  }

  /** Position of the last occurrence of `c`. */
  function LastIndexOf(s: string, c: char): (r: int)
    ensures -1 <= r < |s|
    ensures r >= 0 <==> c in s
    ensures r >= 0 ==> s[r] == c
    ensures forall k :: r < k < |s| ==> s[k] != c
  {
    if s == [] then -1
    else if s[|s| - 1] == c then |s| - 1
    else LastIndexOf(s[..|s| - 1], c)
  }

  /** Start of the line holding position `d`: one past the last newline before it. */
  function LineStart(s: string, d: int): (p: int)
    requires 0 <= d <= |s|
    ensures 0 <= p <= d
    ensures forall k :: p <= k < d ==> s[k] != '\n'
    ensures p > 0 ==> s[p - 1] == '\n'
  {
    LastIndexOf(s[..d], '\n') + 1
  }

  /** `regex.FindStringSubmatch(s)`: the two groups, or `None` when there is no match. */
  function FindSubmatch(s: string): Option<(string, string)>
  {
    var d := LastIndexOf(s, '.');
    if d < 0 then None
    else
      var p := LineStart(s, d);
      if p < d && IsSizeToken(s[d + 1..]) then Some((s[p..d], s[d + 1..])) else None
  }

  /** A size token holds no dot, so any match has its dot at the last dot of `s`. */
  lemma {:induction false} MatchDotIsLast(s: string, p: int, d: int)
    requires MatchAt(s, p, d)
    ensures d == LastIndexOf(s, '.')
  {
    SizeTokenIsSizePattern(s[d + 1..]);
    var n := DigitsEnd(s[d + 1..], 0);
    LowerFromAll(s[d + 1..], n);
    forall k | d < k < |s| ensures s[k] != '.' {
      assert s[k] == s[d + 1..][k - d - 1];
      if k - d - 1 >= n {
        assert IsLower(s[k]);
      }
    }
  }

  /** `FindSubmatch` reports a match exactly when the expression matches somewhere,
      and then gives the groups of the leftmost match. */
  lemma FindSubmatchSpec(s: string)
    ensures FindSubmatch(s).None? <==> !exists p, d :: MatchAt(s, p, d)
    ensures FindSubmatch(s).Some? ==>
      exists p, d :: MatchAt(s, p, d) && FindSubmatch(s).value == (s[p..d], s[d + 1..])
                     && forall q, e :: MatchAt(s, q, e) ==> p <= q && e == d
  {
    var d := LastIndexOf(s, '.');
    if d >= 0 {
      var p := LineStart(s, d);
      SizeTokenIsSizePattern(s[d + 1..]);
      if FindSubmatch(s).Some? {
        assert MatchAt(s, p, d);
        forall q, e | MatchAt(s, q, e) ensures p <= q && e == d {
          MatchDotIsLast(s, q, e);
        }
      } else {
        forall q, e | MatchAt(s, q, e) ensures false {
          MatchDotIsLast(s, q, e);
        }
      }
    } else {
      forall q, e | MatchAt(s, q, e) ensures false {
        MatchDotIsLast(s, q, e);
      }
    }
  }

  /** On text without newlines: a match splits `s` at its last dot into a
      non-empty family and a size token. */
  lemma MatchSplitsAtLastDot(s: string)
    requires '\n' !in s
    ensures FindSubmatch(s).Some? ==>
      var (family, size) := FindSubmatch(s).value;
      s == family + "." + size && family != [] && IsSizeToken(size) && '.' !in size
  {
    var d := LastIndexOf(s, '.');
    if FindSubmatch(s).Some? {
      assert '\n' !in s[..d];
      assert LineStart(s, d) == 0;
      assert s == s[..d] + "." + s[d + 1..];
    }
  }

  /** Conversely, any non-empty newline-free family joined by a dot to a size
      token matches, with exactly those two groups. */
  lemma MatchOfFamilyAndSize(family: string, size: string)
    requires family != [] && '\n' !in family && IsSizeToken(size)
    ensures FindSubmatch(family + "." + size) == Some((family, size))
  {
    var s := family + "." + size;
    var d := |family|;
    assert s[d] == '.' && s[d + 1..] == size && s[..d] == family;
    SizeTokenIsSizePattern(size);
    assert MatchAt(s, 0, d);
    MatchDotIsLast(s, 0, d);
    assert '\n' !in s[..d];
  }

  /** On text without newlines the expression matches exactly when the last dot
      has something before it and a size token after it; group 1 is then
      everything before the last dot. */
  lemma NewlineFreeMatch(s: string)
    ensures '\n' !in s ==>
      var d := LastIndexOf(s, '.');
      FindSubmatch(s) == if d > 0 && IsSizeToken(s[d + 1..]) then Some((s[..d], s[d + 1..])) else None
  {
    var d := LastIndexOf(s, '.');
    if '\n' !in s && d >= 0 {
      assert '\n' !in s[..d];
      assert LineStart(s, d) == 0;
    }
  }

  /** A newline-free text whose part after the last dot is not a size token
      does not match. */
  lemma NoMatchOfBadSize(family: string, size: string)
    requires '\n' !in family && '\n' !in size && '.' !in size && !IsSizeToken(size)
    ensures FindSubmatch(family + "." + size).None?
  {
    var s := family + "." + size;
    NewlineFreeMatch(s);
    assert s[|family|] == '.' && s[|family| + 1..] == size;
    assert LastIndexOf(s, '.') == |family|;
  }

  lemma SizeWordTokens()
    ensures forall t :: t in AwsUtils.Tokens[..8] ==> IsSizeToken(t)
  {
  }

  lemma SmallMultipleTokens()
    ensures forall t :: t in AwsUtils.Tokens[8..12] ==> IsSizeToken(t)
  {
  }

  lemma LargeMultipleTokens()
    ensures forall t :: t in AwsUtils.Tokens[12..] ==> IsSizeToken(t)
  {
  }

  /** Every token of the normalization table has the shape the expression
      requires of a size. */
  lemma TokensAreSizeTokens()
    ensures forall t :: t in AwsUtils.Normalization ==> IsSizeToken(t)
  {
    AwsUtils.TableShape();
    SizeWordTokens();
    SmallMultipleTokens();
    LargeMultipleTokens();
    assert AwsUtils.Tokens == AwsUtils.Tokens[..8] + AwsUtils.Tokens[8..12] + AwsUtils.Tokens[12..];
  }
}
