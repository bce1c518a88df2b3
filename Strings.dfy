/** The few Go `strings`/`strconv` operations the reports rely on, on `seq<char>`. */
module Strings {
  import opened Common

  /** Index of the first occurrence of `c` in `s`. */
  function IndexOf(s: string, c: char): (i: nat)
    requires c in s
    ensures i < |s| && s[i] == c && c !in s[..i]
  {
    if s[0] == c then 0 else 1 + IndexOf(s[1..], c)
  }

  /** `strings.Join`: the parts with `sep` between consecutive ones. */
  function Join(parts: seq<string>, sep: string): string
  {
    if |parts| == 0 then ""
    else if |parts| == 1 then parts[0]
    else parts[0] + sep + Join(parts[1..], sep)
  }

  /** Number of occurrences of `c` in `s`. */
  function Count(s: string, c: char): nat
  {
    if s == [] then 0 else (if s[0] == c then 1 else 0) + Count(s[1..], c)
  }

  /** `strings.Split` with a one-character separator: the maximal runs between
      occurrences of `c`; always at least one (possibly empty) part. */
  function Split(s: string, c: char): (parts: seq<string>)
    ensures |parts| == Count(s, c) + 1
    ensures forall i :: 0 <= i < |parts| ==> c !in parts[i]
    ensures Join(parts, [c]) == s
    decreases |s|
  {
    if c !in s then
      CountAbsent(s, c);
      [s]
    else
      var i := IndexOf(s, c);
      var rest := Split(s[i + 1..], c);
      SplitStep(s, c, i, rest);
      [s[..i]] + rest
  }

  /** Putting the part before the first `c` in front of the parts of the rest
      keeps the three properties of `Split`. */
  lemma SplitStep(s: string, c: char, i: nat, rest: seq<string>)
    requires i < |s| && s[i] == c && c !in s[..i]
    requires |rest| == Count(s[i + 1..], c) + 1
    requires forall k :: 0 <= k < |rest| ==> c !in rest[k]
    requires Join(rest, [c]) == s[i + 1..]
    ensures |[s[..i]] + rest| == Count(s, c) + 1
    ensures forall k :: 0 <= k < |[s[..i]] + rest| ==> c !in ([s[..i]] + rest)[k]
    ensures Join([s[..i]] + rest, [c]) == s
  {
    CountSplitsAt(s, c, i);
    JoinCons(s[..i], rest, [c]);
    assert s == s[..i] + [c] + s[i + 1..];
  }

  lemma JoinCons(head: string, rest: seq<string>, sep: string)
    requires |rest| >= 1
    ensures Join([head] + rest, sep) == head + sep + Join(rest, sep)
  {
    assert ([head] + rest)[1..] == rest;
  }

  /** Appending a part adds the separator and the part at the end. */
  lemma {:induction false} JoinSnoc(parts: seq<string>, x: string, sep: string)
    requires |parts| >= 1
    ensures Join(parts + [x], sep) == Join(parts, sep) + sep + x
    decreases |parts|
  {
    if |parts| > 1 {
      assert (parts + [x])[1..] == parts[1..] + [x];
      JoinSnoc(parts[1..], x, sep);
    } else {
      assert (parts + [x])[1..] == [x];
    }
  }

  lemma {:induction false} CountAbsent(s: string, c: char)
    requires c !in s
    ensures Count(s, c) == 0
  {
    if s != [] {
      assert s[1..] <= s[1..];
      assert c !in s[1..] by {
        forall k | 0 <= k < |s[1..]| ensures s[1..][k] != c {
          assert s[1..][k] == s[k + 1];
        }
      }
      CountAbsent(s[1..], c);
    }
  }

  lemma {:induction false} CountSplitsAt(s: string, c: char, i: nat)
    requires i < |s| && s[i] == c && c !in s[..i]
    ensures Count(s, c) == 1 + Count(s[i + 1..], c)
  {
    if i > 0 {
      assert s[0] != c by { assert s[0] == s[..i][0]; }
      assert s[1..][..i - 1] == s[1..i];
      assert s[..i] == [s[0]] + s[1..i];
      CountSplitsAt(s[1..], c, i - 1);
      assert s[1..][i..] == s[i + 1..];
    }
  }

  /** Splitting a joined list gives the list back, provided no part holds the separator. */
  lemma {:induction false} SplitJoin(parts: seq<string>, c: char)
    requires |parts| >= 1
    requires forall i :: 0 <= i < |parts| ==> c !in parts[i]
    ensures Split(Join(parts, [c]), c) == parts
  {
    if |parts| == 1 {
    } else {
      var s := Join(parts, [c]);
      var tail := Join(parts[1..], [c]);
      assert s == parts[0] + [c] + tail;
      var p := parts[0];
      assert c !in p;
      assert s[|p|] == c;
      assert s[..|p|] == p;
      assert IndexOf(s, c) == |p|;
      assert s[|p| + 1..] == tail;
      SplitJoin(parts[1..], c);
    }
  }

  /** `strings.TrimLeft(s, cutset)` with a one-character cut set. */
  function TrimLeft(s: string, c: char): (r: string)
    ensures |r| <= |s| && r == s[|s| - |r|..]
    ensures r == [] || r[0] != c
    ensures forall k :: 0 <= k < |s| - |r| ==> s[k] == c
  {
    if s != [] && s[0] == c then TrimLeft(s[1..], c) else s
  }

  /** `strings.TrimRight(s, cutset)` with a one-character cut set. */
  function TrimRight(s: string, c: char): (r: string)
    ensures |r| <= |s| && r == s[..|r|]
    ensures r == [] || r[|r| - 1] != c
    ensures forall k :: |r| <= k < |s| ==> s[k] == c
  {
    if s != [] && s[|s| - 1] == c then TrimRight(s[..|s| - 1], c) else s
  }

  /** Byte-wise lexicographic order, as Go compares strings. */
  predicate Less(a: string, b: string)
  {
    if a == [] then b != []
    else if b == [] then false
    else a[0] < b[0] || (a[0] == b[0] && Less(a[1..], b[1..]))
  }

  predicate LessEq(a: string, b: string)
  {
    a == b || Less(a, b)
  }

  lemma {:induction false} LessIrreflexive(a: string)
    ensures !Less(a, a)
  {
    if a != [] {
      LessIrreflexive(a[1..]);
    }
  }

  lemma {:induction false} LessTransitive(a: string, b: string, c: string)
    requires Less(a, b) && Less(b, c)
    ensures Less(a, c)
  {
    if a != [] && a[0] == b[0] && b[0] == c[0] {
      LessTransitive(a[1..], b[1..], c[1..]);
    }
  }

  lemma {:induction false} LessTotal(a: string, b: string)
    ensures a == b || Less(a, b) || Less(b, a)
  {
    if a != [] && b != [] && a[0] == b[0] {
      LessTotal(a[1..], b[1..]);
      if a[1..] == b[1..] {
        assert a == [a[0]] + a[1..] && b == [b[0]] + b[1..];
      }
    }
  }

  lemma LessEqIsTotalPreorder()
    ensures forall a: string, b: string :: LessEq(a, b) || LessEq(b, a)
    ensures forall a: string, b: string, c: string :: LessEq(a, b) && LessEq(b, c) ==> LessEq(a, c)
  {
    forall a: string, b: string ensures LessEq(a, b) || LessEq(b, a) {
      LessTotal(a, b);
    }
    forall a: string, b: string, c: string | LessEq(a, b) && LessEq(b, c) ensures LessEq(a, c) {
      if Less(a, b) && Less(b, c) {
        LessTransitive(a, b, c);
      }
    }
  }

  /** Decimal digits of a natural number, most significant first, no leading zeros. */
  function NatToString(n: nat): (r: string)
    ensures |r| >= 1 && forall k :: 0 <= k < |r| ==> '0' <= r[k] <= '9'
    ensures |r| > 1 ==> r[0] != '0'
  {
    if n < 10 then [DigitChar(n)] else NatToString(n / 10) + [DigitChar(n % 10)]
  }

  function DigitChar(d: nat): (c: char)
    requires d < 10
    ensures '0' <= c <= '9' && c as int - '0' as int == d
  {
    (d + '0' as int) as char
  }

  /** Value of a string of decimal digits. */
  function DigitsValue(s: string): nat
    requires forall k :: 0 <= k < |s| ==> '0' <= s[k] <= '9'
  {
    if s == [] then 0 else 10 * DigitsValue(s[..|s| - 1]) + (s[|s| - 1] as int - '0' as int)
  }

  lemma {:induction false} DigitsValueOfNatToString(n: nat)
    ensures DigitsValue(NatToString(n)) == n
  {
    if n >= 10 {
      var r := NatToString(n);
      assert r[..|r| - 1] == NatToString(n / 10);
      DigitsValueOfNatToString(n / 10);
    }
  }

  /** `s` left-padded with `c` to at least `width` characters. */
  function PadLeft(s: string, width: nat, c: char): (r: string)
    ensures |r| == if |s| >= width then |s| else width
    ensures r[|r| - |s|..] == s
    ensures forall k :: 0 <= k < |r| - |s| ==> r[k] == c
  {
    if |s| >= width then s else [c] + PadLeft(s, width - 1, c)
  }

  /** A decimal integer as Go prints it: '-' for negatives, then the magnitude
      left-padded with zeros to `width` digits. */
  function FormatInt(n: int, width: nat): string
  {
    if n < 0 then "-" + PadLeft(NatToString(-n), width, '0') else PadLeft(NatToString(n), width, '0')
  }

  const MinInt64: int := -0x8000_0000_0000_0000
  const MaxInt64: int := 0x7fff_ffff_ffff_ffff

  predicate IsDigits(s: string)
  {
    |s| >= 1 && forall k :: 0 <= k < |s| ==> '0' <= s[k] <= '9'
  }

  /** `strconv.Atoi` on a 64-bit platform: an optional sign, one or more decimal
      digits and nothing else; values outside the int64 range are errors. */
  function Atoi(s: string): (r: Option<int>)
    ensures r.Some? ==> MinInt64 <= r.value <= MaxInt64
    ensures r.Some? <==> (IsDigits(s) && DigitsValue(s) <= MaxInt64)
                          || (|s| >= 1 && s[0] == '+' && IsDigits(s[1..]) && DigitsValue(s[1..]) <= MaxInt64)
                          || (|s| >= 1 && s[0] == '-' && IsDigits(s[1..]) && -(DigitsValue(s[1..]) as int) >= MinInt64)
  {
    if |s| >= 1 && (s[0] == '+' || s[0] == '-') then
      var body := s[1..];
      if !IsDigits(body) then None
      else
        var v := if s[0] == '-' then -(DigitsValue(body) as int) else DigitsValue(body);
        if MinInt64 <= v <= MaxInt64 then Some(v) else None
    else if IsDigits(s) && DigitsValue(s) <= MaxInt64 then Some(DigitsValue(s))
    else None
  }

  /** Parsing what `strconv.Itoa` prints gives the number back. */
  lemma AtoiOfFormatInt(n: int)
    requires MinInt64 <= n <= MaxInt64
    ensures Atoi(FormatInt(n, 0)) == Some(n)
  {
    if n < 0 {
      var digits := NatToString(-n);
      PadNothing(digits);
      DigitsValueOfNatToString(-n);
      AtoiNegative(digits, -n);
    } else {
      var digits := NatToString(n);
      PadNothing(digits);
      DigitsValueOfNatToString(n);
      AtoiUnsigned(digits, n);
    }
  }

  lemma PadNothing(digits: string)
    ensures PadLeft(digits, 0, '0') == digits
  {
  }

  lemma AtoiUnsigned(digits: string, m: nat)
    requires IsDigits(digits) && DigitsValue(digits) == m <= MaxInt64
    ensures Atoi(digits) == Some(m)
  {
    assert '0' <= digits[0] <= '9';
  }

  lemma AtoiNegative(digits: string, m: nat)
    requires IsDigits(digits) && DigitsValue(digits) == m && -(m as int) >= MinInt64
    ensures Atoi("-" + digits) == Some(-(m as int))
  {
    var s := "-" + digits;
    assert s[1..] == digits;
    assert s[0] == '-';
  }
}
