// String helpers shared by the JavaScript client and the Python backend
// models: whitespace trimming, ASCII case mapping, single-character split and
// join, substring search and decimal rendering of integers.
module Text {
  import opened Wrappers

  /** The ASCII whitespace characters removed by `trim()` and `strip()`. */
  predicate IsSpace(c: char)
  {
    c == ' ' || c == '\t' || c == '\n' || c == '\r' || c == '\U{B}' || c == '\U{C}'
  }

  predicate IsDigit(c: char) { '0' <= c <= '9' }

  predicate IsLowerAlpha(c: char) { 'a' <= c <= 'z' }

  predicate IsUpperAlpha(c: char) { 'A' <= c <= 'Z' }

  /** A character of the regular-expression class `\w`. */
  predicate IsWordChar(c: char) { IsLowerAlpha(c) || IsUpperAlpha(c) || IsDigit(c) || c == '_' }

  predicate AllSpace(s: string)
  {
    forall i :: 0 <= i < |s| ==> IsSpace(s[i])
  }

  function TrimStart(s: string): (r: string)
    ensures |r| <= |s| && r == s[|s| - |r|..]
    ensures AllSpace(s[..|s| - |r|])
    ensures |r| > 0 ==> !IsSpace(r[0])
  {
    if |s| > 0 && IsSpace(s[0]) then TrimStart(s[1..]) else s
  }

  function TrimEnd(s: string): (r: string)
    ensures |r| <= |s| && r == s[..|r|]
    ensures AllSpace(s[|r|..])
    ensures |r| > 0 ==> !IsSpace(r[|r| - 1])
  {
    if |s| > 0 && IsSpace(s[|s| - 1]) then TrimEnd(s[..|s| - 1]) else s
  }

  /** `s.trim()` in JavaScript and `s.strip()` in Python, on ASCII whitespace. */
  function Trim(s: string): (r: string)
    ensures |r| <= |s|
    ensures |r| > 0 ==> !IsSpace(r[0]) && !IsSpace(r[|r| - 1])
  {
    TrimEnd(TrimStart(s))
  }

  /** A string is blank when trimming leaves nothing. */
  predicate IsBlank(s: string) { Trim(s) == "" }

  lemma TrimStartOfTrimmed(s: string)
    requires |s| == 0 || !IsSpace(s[0])
    ensures TrimStart(s) == s
  {
  }

  lemma TrimEndOfTrimmed(s: string)
    requires |s| == 0 || !IsSpace(s[|s| - 1])
    ensures TrimEnd(s) == s
  {
  }

  /** Trimming twice is trimming once. */
  lemma TrimIdempotent(s: string)
    ensures Trim(Trim(s)) == Trim(s)
  {
    var r := Trim(s);
    TrimStartOfTrimmed(r);
    TrimEndOfTrimmed(r);
  }

  lemma {:induction false} TrimStartAllSpace(s: string)
    ensures TrimStart(s) == "" <==> AllSpace(s)
  {
    if |s| > 0 && IsSpace(s[0]) {
      TrimStartAllSpace(s[1..]);
      if AllSpace(s[1..]) {
        assert forall i :: 0 <= i < |s| ==> IsSpace(s[i]) by {
          forall i | 0 <= i < |s| ensures IsSpace(s[i]) {
            if i > 0 { assert s[i] == s[1..][i - 1]; }
          }
        }
      } else {
        var j :| 0 <= j < |s[1..]| && !IsSpace(s[1..][j]);
        assert !IsSpace(s[j + 1]);
      }
    }
  }

  /** The blank strings are exactly the all-whitespace ones. */
  lemma BlankIffAllSpace(s: string)
    ensures IsBlank(s) <==> AllSpace(s)
  {
    TrimStartAllSpace(s);
    var t := TrimStart(s);
    if TrimEnd(t) == "" {
      assert t[|TrimEnd(t)|..] == t;
    }
  }

  function LowerChar(c: char): (r: char)
    ensures !IsUpperAlpha(r)
    ensures IsUpperAlpha(c) || r == c
  {
    if IsUpperAlpha(c) then (c as int + 32) as char else c
  }

  function UpperChar(c: char): (r: char)
    ensures !IsLowerAlpha(r)
    ensures IsLowerAlpha(c) || r == c
  {
    if IsLowerAlpha(c) then (c as int - 32) as char else c
  }

  /** `toLowerCase()` / `lower()` on the ASCII letters. */
  function Lower(s: string): (r: string)
    ensures |r| == |s|
    ensures forall i :: 0 <= i < |s| ==> r[i] == LowerChar(s[i])
  {
    if s == [] then [] else [LowerChar(s[0])] + Lower(s[1..])
  }

  /** A word of lower-case letters is its own trimmed, lower-cased form. */
  lemma PlainLowerWord(s: string)
    requires forall i :: 0 <= i < |s| ==> IsLowerAlpha(s[i])
    ensures Trim(s) == s && Lower(s) == s && Lower(Trim(s)) == s
  {
    TrimOfLowerWord(s);
    LowerOfLowerWord(s);
  }

  lemma TrimOfLowerWord(s: string)
    requires forall i :: 0 <= i < |s| ==> IsLowerAlpha(s[i])
    ensures Trim(s) == s
  {
    if s != [] {
      assert IsLowerAlpha(s[0]) && IsLowerAlpha(s[|s| - 1]);
    }
    TrimStartOfTrimmed(s);
    TrimEndOfTrimmed(s);
  }

  lemma {:induction false} LowerOfLowerWord(s: string)
    requires forall i :: 0 <= i < |s| ==> IsLowerAlpha(s[i])
    ensures Lower(s) == s
    decreases |s|
  {
    if s != [] {
      LowerOfLowerWord(s[1..]);
      assert s == [s[0]] + s[1..];
    }
  }

  /** `toUpperCase()` / `upper()` on the ASCII letters. */
  function Upper(s: string): (r: string)
    ensures |r| == |s|
    ensures forall i :: 0 <= i < |s| ==> r[i] == UpperChar(s[i])
  {
    if s == [] then [] else [UpperChar(s[0])] + Upper(s[1..])
  }

  /** Changing the case of a trimmed string leaves it trimmed: no letter becomes whitespace. */
  lemma CaseKeepsTrimmed(s: string)
    requires Trim(s) == s
    ensures Trim(Upper(s)) == Upper(s) && Trim(Lower(s)) == Lower(s)
  {
    TrimStartOfTrimmed(Upper(s));
    TrimEndOfTrimmed(Upper(s));
    TrimStartOfTrimmed(Lower(s));
    TrimEndOfTrimmed(Lower(s));
  }

  lemma LowerIdempotent(s: string)
    ensures Lower(Lower(s)) == Lower(s)
  {
  }

  lemma UpperIdempotent(s: string)
    ensures Upper(Upper(s)) == Upper(s)
  {
  }

  predicate StartsWith(s: string, prefix: string)
  {
    |prefix| <= |s| && s[..|prefix|] == prefix
  }

  /** `haystack.includes(needle)` / `needle in haystack`. */
  predicate Contains(haystack: string, needle: string)
  {
    StartsWith(haystack, needle) || (|haystack| > 0 && Contains(haystack[1..], needle))
  }

  /** A string contains itself. */
  lemma ContainsSelf(s: string)
    ensures Contains(s, s)
  {
    assert s[..|s|] == s;
  }

  /**
   * `s.split(sep)` with a one-character separator, as in JavaScript and
   * Python: always at least one piece, and no piece holds the separator.
   */
  function Split(s: string, sep: char): (r: seq<string>)
    ensures |r| >= 1
    ensures forall k :: 0 <= k < |r| ==> sep !in r[k]
  {
    if s == [] then [""]
    else
      var rest := Split(s[1..], sep);
      if s[0] == sep then [""] + rest else [[s[0]] + rest[0]] + rest[1..]
  }

  /** `parts.join(sep)`. */
  function Join(parts: seq<string>, sep: string): string
  {
    if |parts| == 0 then ""
    else if |parts| == 1 then parts[0]
    else parts[0] + sep + Join(parts[1..], sep)
  }

  /** Joining the pieces of a split with the same separator gives the input back. */
  lemma {:induction false} JoinSplit(s: string, sep: char)
    ensures Join(Split(s, sep), [sep]) == s
  {
    if s != [] {
      var rest := Split(s[1..], sep);
      JoinSplit(s[1..], sep);
      if s[0] == sep {
        assert Split(s, sep) == [""] + rest;
        assert s == [sep] + s[1..];
      } else {
        var r := Split(s, sep);
        assert r == [[s[0]] + rest[0]] + rest[1..];
        if |rest| == 1 {
          assert Join(r, [sep]) == [s[0]] + rest[0];
          assert s == [s[0]] + s[1..];
        } else {
          assert r[1..] == rest[1..];
          assert Join(rest, [sep]) == rest[0] + [sep] + Join(rest[1..], [sep]);
          assert s == [s[0]] + s[1..];
        }
      }
    }
  }

  lemma {:induction false} SplitNoSep(s: string, sep: char)
    requires sep !in s
    ensures Split(s, sep) == [s]
  {
    if s != [] {
      SplitNoSep(s[1..], sep);
      assert s == [s[0]] + s[1..];
    }
  }

  /** A separator after a separator-free prefix cuts exactly that prefix off. */
  lemma {:induction false} SplitAround(a: string, b: string, sep: char)
    requires sep !in a
    ensures Split(a + [sep] + b, sep) == [a] + Split(b, sep)
  {
    var s := a + [sep] + b;
    if a == [] {
      assert s == [sep] + b;
      assert s[1..] == b;
    } else {
      assert s[0] == a[0] && s[1..] == a[1..] + [sep] + b;
      SplitAround(a[1..], b, sep);
      assert a == [a[0]] + a[1..];
    }
  }

  /** Splitting a join of separator-free pieces gives the pieces back. */
  lemma {:induction false} SplitJoin(parts: seq<string>, sep: char)
    requires |parts| >= 1
    requires forall k :: 0 <= k < |parts| ==> sep !in parts[k]
    ensures Split(Join(parts, [sep]), sep) == parts
    decreases |parts|
  {
    if |parts| == 1 {
      SplitNoSep(parts[0], sep);
    } else {
      SplitJoin(parts[1..], sep);
      SplitAround(parts[0], Join(parts[1..], [sep]), sep);
      assert parts == [parts[0]] + parts[1..];
    }
  }

  /** The pieces of a split number one more than the separators. */
  lemma {:induction false} SplitCount(s: string, sep: char)
    ensures |Split(s, sep)| == 1 + multiset(s)[sep]
  {
    if s != [] {
      SplitCount(s[1..], sep);
      assert s == [s[0]] + s[1..];
      assert multiset(s) == multiset([s[0]]) + multiset(s[1..]);
    }
  }

  /** Joining two non-empty lists is joining each and putting the separator between. */
  lemma {:induction false} JoinConcat(a: seq<string>, b: seq<string>, sep: string)
    requires |a| > 0 && |b| > 0
    ensures Join(a + b, sep) == Join(a, sep) + sep + Join(b, sep)
    decreases |a|
  {
    var ab := a + b;
    if |a| == 1 {
      assert ab[0] == a[0] && ab[1..] == b;
    } else {
      assert ab[0] == a[0] && ab[1..] == a[1..] + b;
      JoinConcat(a[1..], b, sep);
    }
  }

  lemma JoinLength1(parts: seq<string>, sep: string)
    requires |parts| == 1
    ensures Join(parts, sep) == parts[0]
  {
  }

  function DigitChar(d: nat): (c: char)
    requires d < 10
    ensures IsDigit(c)
  {
    ('0' as int + d) as char
  }

  /** The decimal rendering of a natural number (`String(n)`, `str(n)`). */
  function NatToString(n: nat): (r: string)
    ensures |r| >= 1
    ensures forall i :: 0 <= i < |r| ==> IsDigit(r[i])
    ensures (|r| == 1) == (n < 10)
    decreases n
  {
    if n < 10 then [DigitChar(n)] else NatToString(n / 10) + [DigitChar(n % 10)]
  }

  /** A rendered number has no surrounding whitespace. */
  lemma NatToStringTrimmed(n: nat)
    ensures Trim(NatToString(n)) == NatToString(n)
  {
    var s := NatToString(n);
    assert IsDigit(s[0]) && IsDigit(s[|s| - 1]);
    TrimStartOfTrimmed(s);
    TrimEndOfTrimmed(s);
  }

  /** Different numbers render differently. */
  lemma {:induction false} NatToStringInjective(a: nat, b: nat)
    requires NatToString(a) == NatToString(b)
    ensures a == b
    decreases a
  {
    if a >= 10 && b >= 10 {
      var ra, rb := NatToString(a), NatToString(b);
      assert ra[|ra| - 1] == DigitChar(a % 10);
      assert rb[|rb| - 1] == DigitChar(b % 10);
      assert ra[..|ra| - 1] == NatToString(a / 10);
      assert rb[..|rb| - 1] == NatToString(b / 10);
      NatToStringInjective(a / 10, b / 10);
    }
  }

  /** `String(i)` for an integer: a minus sign before the digits of a negative one. */
  function IntToString(i: int): (r: string)
    ensures |r| >= 1
    ensures (i < 0) == (r[0] == '-')
  {
    if i < 0 then "-" + NatToString(-i) else NatToString(i)
  }

  lemma IntToStringInjective(a: int, b: int)
    requires IntToString(a) == IntToString(b)
    ensures a == b
  {
    if a < 0 {
      assert IntToString(a)[1..] == NatToString(-a);
      assert IntToString(b)[1..] == NatToString(-b);
      NatToStringInjective(-a, -b);
    } else {
      NatToStringInjective(a, b);
    }
  }

  /** `String(n).padStart(2, '0')`. */
  function Pad2(n: nat): (r: string)
    ensures |r| >= 2
    ensures n < 100 ==> |r| == 2
    ensures forall i :: 0 <= i < |r| ==> IsDigit(r[i])
  {
    if n < 10 then "0" + NatToString(n) else NatToString(n)
  }

  lemma Pad2Value(n: nat)
    requires n < 100
    ensures AllDigits(Pad2(n)) && DigitsValue(Pad2(n)) == n
  {
    if n < 10 {
      var r := Pad2(n);
      assert r[..|r| - 1] == "0";
      assert DigitsValue("0") == 0;
    } else {
      DigitsValueOfNatToString(n);
    }
  }

  predicate AllDigits(s: string)
  {
    forall i :: 0 <= i < |s| ==> IsDigit(s[i])
  }

  /** The value of a non-empty run of decimal digits. */
  function DigitsValue(s: string): (n: nat)
    requires AllDigits(s)
    decreases |s|
  {
    if s == [] then 0 else DigitsValue(s[..|s| - 1]) * 10 + (s[|s| - 1] as int - '0' as int)
  }

  /** Reading digits back gives the number that was rendered. */
  lemma {:induction false} DigitsValueOfNatToString(n: nat)
    ensures DigitsValue(NatToString(n)) == n
    decreases n
  {
    if n >= 10 {
      var r := NatToString(n);
      assert r[..|r| - 1] == NatToString(n / 10);
      DigitsValueOfNatToString(n / 10);
    }
  }

  /**
   * A signed decimal integer: an optional `+` or `-` followed by at least one
   * digit, and nothing else.
   */
  function ParseInt(s: string): (r: Option<int>)
    ensures r.Some? && s != [] && IsDigit(s[0]) ==> r.value >= 0
  {
    if s == [] then None
    else if (s[0] == '-' || s[0] == '+') && |s| > 1 && AllDigits(s[1..]) then
      var v: int := DigitsValue(s[1..]);
      Some(if s[0] == '-' then -v else v)
    else if AllDigits(s) then Some(DigitsValue(s))
    else None
  }

  lemma ParseIntOfNatToString(n: nat)
    ensures ParseInt(NatToString(n)) == Some(n)
  {
    DigitsValueOfNatToString(n);
  }

  /** `a < b` on strings in JavaScript and Python: lexicographic order of the characters. */
  predicate LexLess(a: string, b: string)
  {
    if a == [] then b != []
    else if b == [] then false
    else a[0] < b[0] || (a[0] == b[0] && LexLess(a[1..], b[1..]))
  }

  /** Distinct strings are ordered one way or the other. */
  lemma {:induction false} LexTotal(a: string, b: string)
    ensures a == b || LexLess(a, b) || LexLess(b, a)
    decreases |a|
  {
    if a != [] && b != [] && a[0] == b[0] {
      LexTotal(a[1..], b[1..]);
      if a[1..] == b[1..] {
        assert a == [a[0]] + a[1..] && b == [b[0]] + b[1..];
      }
    }
  }

  /** No string is before itself, nor before a string that is before it. */
  lemma {:induction false} LexAsymmetric(a: string, b: string)
    ensures !(LexLess(a, b) && LexLess(b, a))
    ensures !LexLess(a, a)
    decreases |a|
  {
    if a != [] && b != [] {
      LexAsymmetric(a[1..], b[1..]);
    }
    if a != [] {
      LexAsymmetric(a[1..], a[1..]);
    }
  }

  lemma {:induction false} LexTransitive(a: string, b: string, c: string)
    requires LexLess(a, b) && LexLess(b, c)
    ensures LexLess(a, c)
    decreases |a|
  {
    if a != [] && a[0] == b[0] && b[0] == c[0] {
      LexTransitive(a[1..], b[1..], c[1..]);
    }
  }

  /** The stripped strings that are not blank, in order: the comprehension `[p.strip() for p in points if p and p.strip()]`. */
  function CleanedPoints(points: seq<string>): (cleaned: seq<string>)
    ensures |cleaned| <= |points|
  {
    if points == [] then []
    else (if Trim(points[0]) != "" then [Trim(points[0])] else []) + CleanedPoints(points[1..])
  }

  /** Some point strips to `x`, and `x` is not empty. */
  predicate CleanedFrom(points: seq<string>, x: string)
  {
    x != "" && exists i :: 0 <= i < |points| && Trim(points[i]) == x
  }

  /** The cleaned points are the stripped points that are not blank. */
  lemma {:induction false} CleanedPointsMembers(points: seq<string>)
    ensures forall x :: x in CleanedPoints(points) <==> CleanedFrom(points, x)
    decreases |points|
  {
    if points != [] {
      var rest := points[1..];
      var head := if Trim(points[0]) != "" then [Trim(points[0])] else [];
      CleanedPointsMembers(rest);
      assert CleanedPoints(points) == head + CleanedPoints(rest);
      forall x | x in CleanedPoints(points) ensures CleanedFrom(points, x) {
        if x !in head {
          var i :| 0 <= i < |rest| && Trim(rest[i]) == x;
          assert points[i + 1] == rest[i];
        }
      }
      forall x | CleanedFrom(points, x) ensures x in CleanedPoints(points) {
        var i :| 0 <= i < |points| && Trim(points[i]) == x;
        if i > 0 {
          assert rest[i - 1] == points[i];
          assert CleanedFrom(rest, x);
        }
      }
    }
  }
}
