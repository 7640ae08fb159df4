/**
 * The handful of Python string operations the inventory plugin relies on:
 * substring containment (`in`), `str.replace`, `str.split`, `str.lower`,
 * `str(int)` and `int(str)`, each written out over `seq<char>`.
 */
module Text {
  import opened Wrappers

  predicate IsDigit(c: char) {
    '0' <= c <= '9'
  }

  /** `pat in s` for Python strings: `pat` occurs somewhere in `s`. */
  predicate Contains(s: string, pat: string)
    decreases |s|
  {
    pat <= s || (|s| > 0 && Contains(s[1..], pat))
  }

  /** A pattern longer than the string cannot occur in it. */
  lemma {:induction false} ContainsNeedsRoom(s: string, pat: string)
    requires |s| < |pat|
    ensures !Contains(s, pat)
    decreases |s|
  {
    if |s| > 0 {
      ContainsNeedsRoom(s[1..], pat);
    }
  }

  /** `s.replace(pat, "")`: every non-overlapping occurrence of `pat`, scanned from the left, is removed. */
  function ReplaceAll(s: string, pat: string): string
    requires pat != []
    decreases |s|
  {
    if s == [] then []
    else if pat <= s then ReplaceAll(s[|pat|..], pat)
    else [s[0]] + ReplaceAll(s[1..], pat)
  }

  /** A string without the pattern is left as it is. */
  lemma {:induction false} ReplaceAllWithoutMatch(s: string, pat: string)
    requires pat != [] && !Contains(s, pat)
    ensures ReplaceAll(s, pat) == s
    decreases |s|
  {
    if s != [] {
      ReplaceAllWithoutMatch(s[1..], pat);
    }
  }

  /** Removing occurrences never lengthens a string, and a string holding the pattern loses at least one copy of it. */
  lemma {:induction false} ReplaceAllShortens(s: string, pat: string)
    requires pat != []
    ensures |ReplaceAll(s, pat)| <= |s|
    ensures Contains(s, pat) ==> |ReplaceAll(s, pat)| <= |s| - |pat|
    decreases |s|
  {
    if s == [] {
    } else if pat <= s {
      ReplaceAllShortens(s[|pat|..], pat);
    } else {
      ReplaceAllShortens(s[1..], pat);
    }
  }

  /** Number of occurrences of `c` in `s`. */
  function Count(s: string, c: char): nat
    decreases |s|
  {
    if s == [] then 0 else (if s[0] == c then 1 else 0) + Count(s[1..], c)
  }

  /** `s.split(sep)` with an explicit one-character separator: no trimming, empty parts kept. */
  function Split(s: string, sep: char): (parts: seq<string>)
    ensures |parts| >= 1
    decreases |s|
  {
    if s == [] then [[]]
    else
      var rest := Split(s[1..], sep);
      if s[0] == sep then [[]] + rest
      else [[s[0]] + rest[0]] + rest[1..]
  }

  /** `sep.join(parts)`, the inverse of `Split`. */
  function Join(parts: seq<string>, sep: char): string
    requires |parts| >= 1
    decreases |parts|
  {
    if |parts| == 1 then parts[0] else parts[0] + [sep] + Join(parts[1..], sep)
  }

  /** Splitting loses nothing: joining the parts with the separator gives the string back. */
  lemma {:induction false} SplitJoin(s: string, sep: char)
    ensures Join(Split(s, sep), sep) == s
    decreases |s|
  {
    if s != [] {
      SplitJoin(s[1..], sep);
      var rest := Split(s[1..], sep);
      var parts := Split(s, sep);
      if s[0] == sep {
        assert parts[1..] == rest;
        assert s == [sep] + s[1..];
      } else {
        assert parts[1..] == rest[1..];
        if |rest| > 1 {
          assert Join(rest, sep) == rest[0] + [sep] + Join(rest[1..], sep);
        }
        assert s == [s[0]] + s[1..];
      }
    }
  }

  /** `split(sep)` yields one more part than there are separators. */
  lemma {:induction false} SplitCount(s: string, sep: char)
    ensures |Split(s, sep)| == Count(s, sep) + 1
    decreases |s|
  {
    if s != [] {
      SplitCount(s[1..], sep);
    }
  }

  /** No part of `split(sep)` holds the separator. */
  lemma {:induction false} SplitParts(s: string, sep: char)
    ensures forall i :: 0 <= i < |Split(s, sep)| ==> sep !in Split(s, sep)[i]
    decreases |s|
  {
    if s != [] {
      SplitParts(s[1..], sep);
      var rest := Split(s[1..], sep);
      var parts := Split(s, sep);
      forall i | 0 <= i < |parts|
        ensures sep !in parts[i]
      {
        if s[0] == sep {
          if i > 0 {
            assert parts[i] == rest[i - 1];
          }
        } else if i == 0 {
          assert sep !in rest[0];
        } else {
          assert parts[i] == rest[i];
        }
      }
    }
  }

  /** A string without the separator splits into itself alone. */
  lemma {:induction false} SplitWithoutSeparator(s: string, sep: char)
    requires sep !in s
    ensures Split(s, sep) == [s]
    decreases |s|
  {
    if s != [] {
      assert sep !in s[1..];
      SplitWithoutSeparator(s[1..], sep);
      assert [s[0]] + s[1..] == s;
    }
  }

  /** ASCII case folding, the part of `str.lower` this model covers. */
  function LowerChar(c: char): char {
    if 'A' <= c <= 'Z' then (c as int + 32) as char else c
  }

  function Lower(s: string): string {
    seq(|s|, i requires 0 <= i < |s| => LowerChar(s[i]))
  }

  function DigitChar(d: nat): char
    requires d < 10
  {
    ('0' as int + d) as char
  }

  /** `str(n)` for a natural number: its shortest decimal spelling. */
  function NatToString(n: nat): string
    decreases n
  {
    if n < 10 then [DigitChar(n)] else NatToString(n / 10) + [DigitChar(n % 10)]
  }

  /** `str(i)` for a Python int. */
  function IntToString(i: int): string {
    if i < 0 then "-" + NatToString(-i) else NatToString(i)
  }

  predicate IsDigits(s: string) {
    |s| > 0 && forall i :: 0 <= i < |s| ==> IsDigit(s[i])
  }

  function DigitsValue(s: string): nat
    requires forall i :: 0 <= i < |s| ==> IsDigit(s[i])
    decreases |s|
  {
    if s == [] then 0
    else
      assert IsDigit(s[|s| - 1]);
      DigitsValue(s[..|s| - 1]) * 10 + (s[|s| - 1] as int - '0' as int)
  }

  /**
   * `int(s)` for a string: an optional sign followed by decimal digits;
   * anything else is the `ValueError` case, `None` here.
   */
  function ParseInt(s: string): Option<int> {
    if |s| > 0 && (s[0] == '-' || s[0] == '+') then
      if IsDigits(s[1..]) then
        var magnitude: int := DigitsValue(s[1..]);
        Some(if s[0] == '-' then -magnitude else magnitude)
      else None
    else if IsDigits(s) then Some(DigitsValue(s))
    else None
  }

  lemma {:induction false} NatToStringDigits(n: nat)
    ensures IsDigits(NatToString(n)) && DigitsValue(NatToString(n)) == n
    ensures |NatToString(n)| == 1 <==> n < 10
    decreases n
  {
    if n >= 10 {
      NatToStringDigits(n / 10);
      var s := NatToString(n / 10);
      var t := s + [DigitChar(n % 10)];
      assert t[..|t| - 1] == s;
    }
  }

  /** `int(str(i)) == i`: the decimal spelling of every integer parses back to it. */
  lemma ParseIntRoundTrip(i: int)
    ensures ParseInt(IntToString(i)) == Some(i)
  {
    if i < 0 {
      NatToStringDigits(-i);
      var s := IntToString(i);
      assert s[1..] == NatToString(-i);
    } else {
      NatToStringDigits(i);
    }
  }

  /** `int()` accepts every run of decimal digits, with or without one leading sign. */
  lemma ParseIntDecimal(s: string)
    ensures IsDigits(s) ==> ParseInt(s) == Some(DigitsValue(s) as int)
    ensures |s| > 1 && s[0] == '+' && IsDigits(s[1..]) ==> ParseInt(s) == Some(DigitsValue(s[1..]) as int)
    ensures |s| > 1 && s[0] == '-' && IsDigits(s[1..]) ==> ParseInt(s) == Some(-(DigitsValue(s[1..]) as int))
  {
    if IsDigits(s) {
      assert IsDigit(s[0]);
    }
  }

  /** A string that `int()` accepts holds only digits after its first character. */
  lemma ParseIntNeedsDigits(s: string)
    requires ParseInt(s).Some?
    ensures |s| > 0 && forall i :: 0 < i < |s| ==> IsDigit(s[i])
    ensures IsDigit(s[0]) || ((s[0] == '-' || s[0] == '+') && |s| > 1)
  {
    if s[0] == '-' || s[0] == '+' {
      forall i | 0 < i < |s|
        ensures IsDigit(s[i])
      {
        assert s[1..][i - 1] == s[i];
      }
    }
  }

  /**
   * The decimal spelling of an integer is already lower case, starts with a
   * digit or a minus sign, and is "0" only for zero.
   */
  lemma IntToStringShape(i: int)
    ensures Lower(IntToString(i)) == IntToString(i)
    ensures |IntToString(i)| > 0
    ensures IsDigit(IntToString(i)[0]) || IntToString(i)[0] == '-'
    ensures IntToString(i) == "0" <==> i == 0
  {
    var n: nat := if i < 0 then -i else i;
    NatToStringDigits(n);
    var s := IntToString(i);
    if i < 0 {
      assert s[1..] == NatToString(n);
      forall k | 0 <= k < |s|
        ensures LowerChar(s[k]) == s[k]
      {
        if k > 0 {
          assert s[k] == NatToString(n)[k - 1];
        }
      }
    } else if n < 10 {
      assert s == [DigitChar(n)];
    }
  }
}
