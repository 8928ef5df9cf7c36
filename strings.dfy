/**
 * The JavaScript string operations the core relies on, as functions on `seq<char>`:
 * `trim`, `split` on one separator character, `join`, `includes`, an ASCII
 * `toLowerCase` and the decimal rendering of a non-negative integer.
 */
module Strings {

  /** The WhiteSpace and LineTerminator code points that JavaScript's `String.prototype.trim` removes. */
  predicate IsJsWhitespace(c: char)
  {
    || c == '\t' || c == '\n' || c == '\U{000B}' || c == '\U{000C}' || c == '\r' || c == ' '
    || c == '\U{00A0}' || c == '\U{1680}' || ('\U{2000}' <= c <= '\U{200A}')
    || c == '\U{2028}' || c == '\U{2029}' || c == '\U{202F}' || c == '\U{205F}'
    || c == '\U{3000}' || c == '\U{FEFF}'
  }

  /** A string with no whitespace at either end (the fixed points of `Trim`). */
  predicate IsTrimmed(s: string)
  {
    s == [] || (!IsJsWhitespace(s[0]) && !IsJsWhitespace(s[|s| - 1]))
  }

  /** `trimStart`: the suffix left after dropping the leading whitespace. */
  function TrimStart(s: string): (r: string)
    ensures |r| <= |s| && r == s[|s| - |r|..]
    ensures forall k :: 0 <= k < |s| - |r| ==> IsJsWhitespace(s[k])
    ensures r != [] ==> !IsJsWhitespace(r[0])
  {
    if s != [] && IsJsWhitespace(s[0]) then TrimStart(s[1..]) else s
  }

  /** `trimEnd`: the prefix left after dropping the trailing whitespace. */
  function TrimEnd(s: string): (r: string)
    ensures |r| <= |s| && r == s[..|r|]
    ensures forall k :: |r| <= k < |s| ==> IsJsWhitespace(s[k])
    ensures r != [] ==> !IsJsWhitespace(r[|r| - 1])
  {
    if s != [] && IsJsWhitespace(s[|s| - 1]) then TrimEnd(s[..|s| - 1]) else s
  }

  /**
   * `trim`: a slice of `s` with no whitespace at either end; it is empty exactly
   * when `s` is whitespace only.
   */
  function Trim(s: string): (r: string)
    ensures IsTrimmed(r)
    ensures |r| <= |s| && forall c :: c in r ==> c in s
    ensures r == [] <==> forall k :: 0 <= k < |s| ==> IsJsWhitespace(s[k])
    ensures exists i, j :: 0 <= i <= j <= |s| && r == s[i..j]
                           && forall k :: 0 <= k < i || j <= k < |s| ==> IsJsWhitespace(s[k])
  {
    var t := TrimStart(s);
    var r := TrimEnd(t);
    TrimBounds(s, t, r);
    r
  }

  /** A suffix `t` of `s` after leading whitespace, then a prefix `r` of `t` before trailing whitespace. */
  lemma TrimBounds(s: string, t: string, r: string)
    requires |t| <= |s| && t == s[|s| - |t|..] && forall k :: 0 <= k < |s| - |t| ==> IsJsWhitespace(s[k])
    requires |r| <= |t| && r == t[..|r|] && forall k :: |r| <= k < |t| ==> IsJsWhitespace(t[k])
    ensures r == s[|s| - |t|..|s| - |t| + |r|]
    ensures forall k :: 0 <= k < |s| - |t| || |s| - |t| + |r| <= k < |s| ==> IsJsWhitespace(s[k])
    ensures t != [] ==> t[0] == s[|s| - |t|]
  {
    var i := |s| - |t|;
    forall k | i + |r| <= k < |s| ensures IsJsWhitespace(s[k]) {
      assert s[k] == t[k - i];
    }
  }

  lemma TrimOfTrimmed(s: string)
    requires IsTrimmed(s)
    ensures Trim(s) == s
  {
  }

  /**
   * `s.split(sep)`: the pieces between occurrences of `sep`. Like JavaScript's,
   * it always yields at least one piece (`"".split(",")` is `[""]`).
   */
  function Split(s: string, sep: char): (r: seq<string>)
    ensures |r| >= 1
    ensures forall p :: p in r ==> sep !in p
  {
    if s == [] then [[]]
    else
      var rest := Split(s[1..], sep);
      if s[0] == sep then [[]] + rest
      else [[s[0]] + rest[0]] + rest[1..]
  }

  /** `pieces.join(sep)`; the join of no pieces is the empty string. */
  function Join(pieces: seq<string>, sep: string): string
  {
    if |pieces| == 0 then []
    else if |pieces| == 1 then pieces[0]
    else pieces[0] + sep + Join(pieces[1..], sep)
  }

  /** Joining the pieces of a split with the same separator gives back the original string. */
  lemma {:induction false} JoinSplit(s: string, sep: char)
    ensures Join(Split(s, sep), [sep]) == s
  {
    if s != [] {
      var rest := Split(s[1..], sep);
      JoinSplit(s[1..], sep);
      if s[0] == sep {
        assert Split(s, sep) == [[]] + rest;
        assert ([[]] + rest)[1..] == rest;
      } else if |rest| == 1 {
        assert Split(s, sep) == [[s[0]] + rest[0]];
      } else {
        var ps := Split(s, sep);
        assert ps == [[s[0]] + rest[0]] + rest[1..];
        assert ps[1..] == rest[1..];
        calc {
          Join(ps, [sep]);
          ([s[0]] + rest[0]) + [sep] + Join(rest[1..], [sep]);
          [s[0]] + (rest[0] + [sep] + Join(rest[1..], [sep]));
          [s[0]] + Join(rest, [sep]);
        }
      }
    }
  }

  /** A piece free of the separator, followed by the separator, splits off as one piece. */
  lemma {:induction false} SplitPrefix(a: string, sep: char, t: string)
    requires sep !in a
    ensures Split(a + [sep] + t, sep) == [a] + Split(t, sep)
  {
    if a == [] {
      assert (a + [sep] + t)[1..] == t;
    } else {
      SplitPrefix(a[1..], sep, t);
      assert (a + [sep] + t)[1..] == a[1..] + [sep] + t;
      assert [a[0]] + a[1..] == a;
    }
  }

  /** A string free of the separator splits into itself alone. */
  lemma {:induction false} SplitWithoutSeparator(a: string, sep: char)
    requires sep !in a
    ensures Split(a, sep) == [a]
  {
    if a != [] {
      SplitWithoutSeparator(a[1..], sep);
      assert [a[0]] + a[1..] == a;
    }
  }

  /** Splitting a join of separator-free pieces recovers exactly those pieces. */
  lemma {:induction false} SplitJoin(pieces: seq<string>, sep: char)
    requires |pieces| >= 1
    requires forall p :: p in pieces ==> sep !in p
    ensures Split(Join(pieces, [sep]), sep) == pieces
  {
    if |pieces| == 1 {
      SplitWithoutSeparator(pieces[0], sep);
    } else {
      SplitJoin(pieces[1..], sep);
      SplitPrefix(pieces[0], sep, Join(pieces[1..], [sep]));
      assert [pieces[0]] + pieces[1..] == pieces;
    }
  }

  /** `haystack.includes(needle)`: `needle` starts at the front or somewhere in the rest. */
  predicate Contains(haystack: string, needle: string)
    decreases |haystack|
  {
    needle <= haystack || (haystack != [] && Contains(haystack[1..], needle))
  }

  /** `Contains` holds exactly when `needle` occurs at some position of `haystack`. */
  lemma {:induction false} ContainsAt(haystack: string, needle: string)
    ensures Contains(haystack, needle) <==> exists i :: 0 <= i <= |haystack| && needle <= haystack[i..]
  {
    assert haystack[0..] == haystack;
    if haystack != [] {
      var rest := haystack[1..];
      ContainsAt(rest, needle);
      if Contains(rest, needle) {
        var i :| 0 <= i <= |rest| && needle <= rest[i..];
        assert rest[i..] == haystack[i + 1..];
      }
      forall i | 1 <= i <= |haystack| && needle <= haystack[i..] ensures Contains(rest, needle) {
        assert rest[i - 1..] == haystack[i..];
      }
    }
  }


  /** ASCII lower-casing of one character; other characters are left as they are. */
  function LowerChar(c: char): char
  {
    if 'A' <= c <= 'Z' then (c as int - 'A' as int + 'a' as int) as char else c
  }

  /** `toLowerCase`, restricted to the ASCII letters. */
  function ToLower(s: string): (r: string)
    ensures |r| == |s|
  {
    seq(|s|, i requires 0 <= i < |s| => LowerChar(s[i]))
  }

  lemma ToLowerIdempotent(s: string)
    ensures ToLower(ToLower(s)) == ToLower(s)
  {
  }

  predicate IsDigit(c: char)
  {
    '0' <= c <= '9'
  }

  function DigitChar(d: nat): (c: char)
    requires d < 10
    ensures IsDigit(c) && c as int - '0' as int == d
  {
    ('0' as int + d) as char
  }

  /** `String(n)` / `${n}` for a non-negative integer: its shortest decimal digits. */
  function NatToString(n: nat): (r: string)
    ensures |r| >= 1
    ensures forall k :: 0 <= k < |r| ==> IsDigit(r[k])
    ensures |r| > 1 ==> r[0] != '0'
    decreases n
  {
    if n < 10 then [DigitChar(n)] else NatToString(n / 10) + [DigitChar(n % 10)]
  }

  /** The value of a string of decimal digits (the reading direction of `NatToString`). */
  function DigitsValue(s: string): nat
    requires forall k :: 0 <= k < |s| ==> IsDigit(s[k])
  {
    if s == [] then 0
    else
      assert IsDigit(s[|s| - 1]);
      DigitsValue(s[..|s| - 1]) * 10 + (s[|s| - 1] as int - '0' as int)
  }

  /** `NatToString` loses nothing: reading its digits back gives the number. */
  lemma {:induction false} NatToStringRoundTrip(n: nat)
    ensures DigitsValue(NatToString(n)) == n
    decreases n
  {
    if n >= 10 {
      NatToStringRoundTrip(n / 10);
      var s := NatToString(n);
      assert s[..|s| - 1] == NatToString(n / 10);
    }
  }
}
