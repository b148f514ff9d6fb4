/**
  The pieces of Rust's `str` and integer parsing/formatting that the core relies on,
  over `string` (= `seq<char>`, one element per Unicode scalar value, as a Rust `char`).
*/
module Strings {
  import opened Wrappers

  /** `char::is_whitespace`: the characters with the Unicode White_Space property. */
  predicate IsWhitespace(c: char) {
    ('\t' <= c <= '\r') || c == ' ' || c == '\U{85}' || c == '\U{A0}' || c == '\U{1680}'
    || ('\U{2000}' <= c <= '\U{200A}') || c == '\U{2028}' || c == '\U{2029}'
    || c == '\U{202F}' || c == '\U{205F}' || c == '\U{3000}'
  }

  predicate AllWhitespace(s: string) {
    forall i | 0 <= i < |s| :: IsWhitespace(s[i])
  }

  predicate NoWhitespace(s: string) {
    forall i | 0 <= i < |s| :: !IsWhitespace(s[i])
  }

  predicate StartsWith(s: string, prefix: string) {
    |prefix| <= |s| && s[..|prefix|] == prefix
  }

  predicate EndsWith(s: string, suffix: string) {
    |suffix| <= |s| && s[|s| - |suffix|..] == suffix
  }

  /** `str::contains` with a string pattern. */
  predicate Contains(s: string, pattern: string) {
    exists i | 0 <= i <= |s| :: StartsWith(s[i..], pattern)
  }

  lemma ContainsAt(s: string, pattern: string, i: nat)
    requires i + |pattern| <= |s| && s[i..i + |pattern|] == pattern
    ensures Contains(s, pattern)
  {
    assert StartsWith(s[i..], pattern);
  }

  lemma ConcatContains(a: string, b: string, c: string)
    ensures Contains(a + b + c, b)
  {
    assert (a + b + c)[|a|..|a| + |b|] == b;
    ContainsAt(a + b + c, b, |a|);
  }

  /** A line that contains a pattern with a non-blank character is not blank. */
  lemma {:induction false} ContainsNotBlank(s: string, pattern: string, k: nat)
    requires Contains(s, pattern) && k < |pattern| && !IsWhitespace(pattern[k])
    ensures !AllWhitespace(s)
  {
    var i :| 0 <= i <= |s| && StartsWith(s[i..], pattern);
    assert s[i + k] == pattern[k];
  }

  /** `str::trim_start`. */
  function TrimStart(s: string): (r: string)
    ensures |r| <= |s| && r == s[|s| - |r|..]
    ensures AllWhitespace(s[..|s| - |r|])
    ensures r != [] ==> !IsWhitespace(r[0])
  {
    if s != [] && IsWhitespace(s[0]) then
      var r := TrimStart(s[1..]);
      assert s[..|s| - |r|] == [s[0]] + s[1..][..|s| - 1 - |r|];
      r
    else s
  }

  /** `str::trim_end`. */
  function TrimEnd(s: string): (r: string)
    ensures |r| <= |s| && r == s[..|r|]
    ensures AllWhitespace(s[|r|..])
    ensures r != [] ==> !IsWhitespace(r[|r| - 1])
  {
    if s != [] && IsWhitespace(s[|s| - 1]) then
      var r := TrimEnd(s[..|s| - 1]);
      assert s[|r|..] == s[..|s| - 1][|r|..] + [s[|s| - 1]];
      r
    else s
  }

  /** `str::trim`: the result is `s[a..a + |r|]` with only whitespace around it. */
  function Trim(s: string): (r: string)
    ensures TrimOffset(s) + |r| <= |s|
    ensures r == s[TrimOffset(s)..TrimOffset(s) + |r|]
    ensures AllWhitespace(s[..TrimOffset(s)]) && AllWhitespace(s[TrimOffset(s) + |r|..])
    ensures r != [] ==> !IsWhitespace(r[0]) && !IsWhitespace(r[|r| - 1])
  {
    var t := TrimStart(s);
    var r := TrimEnd(t);
    PrefixOfSuffix(s, t, r);
    r
  }

  /** A prefix `r` of a suffix `t` of `s` is a slice of `s`, and what follows it in `t` ends `s`. */
  lemma PrefixOfSuffix(s: string, t: string, r: string)
    requires |t| <= |s| && t == s[|s| - |t|..] && |r| <= |t| && r == t[..|r|]
    ensures s[|s| - |t|..|s| - |t| + |r|] == r && s[|s| - |t| + |r|..] == t[|r|..]
    ensures r != [] ==> r[0] == t[0]
  {
  }

  /** Where `Trim(s)` starts in `s`. */
  function TrimOffset(s: string): nat {
    |s| - |TrimStart(s)|
  }

  /** Length of the leading run of non-whitespace characters. */
  function TokenLength(t: string): (n: nat)
    ensures n <= |t| && NoWhitespace(t[..n]) && (n == |t| || IsWhitespace(t[n]))
  {
    if t == [] || IsWhitespace(t[0]) then 0
    else
      var n := 1 + TokenLength(t[1..]);
      assert t[..n] == [t[0]] + t[1..][..n - 1];
      n
  }

  /**
    The first item of `str::split_whitespace`: the maximal run of non-whitespace
    characters that starts at the first non-whitespace character of `s`.
  */
  function FirstToken(s: string): (r: Option<string>)
    ensures r.None? <==> AllWhitespace(s)
    ensures r.Some? ==>
      var a := TrimOffset(s);
      && r.value != [] && NoWhitespace(r.value)
      && a + |r.value| <= |s| && s[a..a + |r.value|] == r.value
      && AllWhitespace(s[..a])
      && (a + |r.value| == |s| || IsWhitespace(s[a + |r.value|]))
  {
    var t := TrimStart(s);
    if t == [] then
      assert s[..|s|] == s;
      None
    else
      assert !AllWhitespace(s) by { assert !IsWhitespace(s[|s| - |t|]); }
      Some(t[..TokenLength(t)])
  }

  /** `str::find` for a single character: the first index of `c`, or `|s|` if absent. */
  function IndexOf(s: string, c: char): (n: nat)
    ensures n <= |s| && c !in s[..n] && (n < |s| ==> s[n] == c)
  {
    if s == [] then 0
    else if s[0] == c then 0
    else
      var n := 1 + IndexOf(s[1..], c);
      assert s[..n] == [s[0]] + s[1..][..n - 1];
      n
  }

  /** `str::split` with a single-character separator: never empty, separator-free parts. */
  function Split(s: string, sep: char): (parts: seq<string>)
    ensures |parts| >= 1
    ensures forall k | 0 <= k < |parts| :: sep !in parts[k]
  {
    if s == [] then [[]]
    else
      var rest := Split(s[1..], sep);
      if s[0] == sep then [[]] + rest
      else [[s[0]] + rest[0]] + rest[1..]
  }

  /** `[&str]::join`. */
  function Join(parts: seq<string>, sep: string): string {
    if |parts| == 0 then []
    else if |parts| == 1 then parts[0]
    else parts[0] + sep + Join(parts[1..], sep)
  }

  lemma {:induction false} JoinPrepend(x: string, parts: seq<string>, sep: string)
    requires |parts| >= 1
    ensures Join([x + parts[0]] + parts[1..], sep) == x + Join(parts, sep)
  {
    var ps := [x + parts[0]] + parts[1..];
    assert ps[1..] == parts[1..];
  }

  /** Splitting and re-joining with the same separator gives the string back. */
  lemma {:induction false} JoinSplit(s: string, sep: char)
    ensures Join(Split(s, sep), [sep]) == s
  {
    if s != [] {
      var rest := Split(s[1..], sep);
      JoinSplit(s[1..], sep);
      if s[0] == sep {
        var ps := [[]] + rest;
        assert ps[1..] == rest;
        assert s == [sep] + s[1..];
      } else {
        JoinPrepend([s[0]], rest, [sep]);
        assert s == [s[0]] + s[1..];
      }
    }
  }

  /** The number of parts is one more than the number of separators. */
  lemma {:induction false} SplitCount(s: string, sep: char)
    ensures |Split(s, sep)| == multiset(s)[sep] + 1
  {
    if s != [] {
      SplitCount(s[1..], sep);
      assert s == [s[0]] + s[1..];
      assert multiset(s) == multiset{s[0]} + multiset(s[1..]);
    }
  }

  /** Drop one trailing carriage return. */
  function StripCr(line: string): string {
    if line != [] && line[|line| - 1] == '\r' then line[..|line| - 1] else line
  }

  /**
    `str::lines`: split at each "\n", drop a "\r" just before it, and give no empty
    line after a final "\n" (so "" has no lines).
  */
  function Lines(s: string): (ls: seq<string>)
    ensures forall k | 0 <= k < |ls| :: '\n' !in ls[k]
    ensures s == [] <==> ls == []
    decreases |s|
  {
    if s == [] then []
    else
      var n := IndexOf(s, '\n');
      if n == |s| then [s]
      else [StripCr(s[..n])] + Lines(s[n + 1..])
  }

  /** One step of `Lines` on a text without carriage returns that holds a "\n". */
  lemma LinesStep(s: string, n: nat)
    requires '\r' !in s && n == IndexOf(s, '\n') && n < |s|
    ensures Lines(s) == [s[..n]] + Lines(s[n + 1..])
    ensures '\r' !in s[n + 1..]
  {
    if s[..n] != [] {
      assert s[..n][n - 1] == s[n - 1];
    }
    assert StripCr(s[..n]) == s[..n];
    var rest := s[n + 1..];
    forall i | 0 <= i < |rest| ensures rest[i] != '\r' {
      assert rest[i] == s[n + 1 + i];
    }
  }

  lemma JoinCons(x: string, rest: seq<string>, sep: string)
    ensures Join([x] + rest, sep) == if rest == [] then x else x + sep + Join(rest, sep)
  {
    if rest != [] {
      assert ([x] + rest)[1..] == rest;
    }
  }

  /** The "\n" ending `s`, if there is one. */
  function FinalNewline(s: string): string {
    if s != [] && s[|s| - 1] == '\n' then "\n" else ""
  }

  lemma FinalNewlineAppend(a: string, b: string)
    requires b != []
    ensures FinalNewline(a + b) == FinalNewline(b)
  {
    assert (a + b)[|a + b| - 1] == b[|b| - 1];
  }

  /** The inductive step of `JoinLines`: one more line in front. */
  lemma JoinLinesStep(head: string, rest: string, ls: seq<string>)
    requires (ls == []) == (rest == [])
    requires Join(ls, "\n") + FinalNewline(rest) == rest
    ensures Join([head] + ls, "\n") + FinalNewline(head + "\n" + rest) == head + "\n" + rest
  {
    JoinCons(head, ls, "\n");
    if rest != [] {
      FinalNewlineAppend(head + "\n", rest);
      var j, f := Join(ls, "\n"), FinalNewline(rest);
      assert head + "\n" + j + f == head + "\n" + (j + f);
    }
  }

  lemma SplitAround(s: string, n: nat)
    requires n < |s| && s[n] == '\n'
    ensures s == s[..n] + "\n" + s[n + 1..]
  {
  }

  /**
    Without carriage returns, joining the lines with "\n" gives the text back,
    apart from one final "\n".
  */
  lemma {:induction false} JoinLines(s: string)
    requires '\r' !in s
    ensures Join(Lines(s), "\n") + FinalNewline(s) == s
    decreases |s|
  {
    if s != [] {
      var n := IndexOf(s, '\n');
      if n < |s| {
        LinesStep(s, n);
        JoinLines(s[n + 1..]);
        JoinLinesStep(s[..n], s[n + 1..], Lines(s[n + 1..]));
        SplitAround(s, n);
      } else {
        assert s[..n] == s;
      }
    }
  }

  // ----- Numbers -----

  /** The value of a digit in radix up to 16, in either letter case. */
  function DigitValue(c: char): (d: Option<nat>)
    ensures d.Some? ==> d.value < 16
  {
    if '0' <= c <= '9' then Some(c as int - '0' as int)
    else if 'a' <= c <= 'f' then Some(c as int - 'a' as int + 10)
    else if 'A' <= c <= 'F' then Some(c as int - 'A' as int + 10)
    else None
  }

  predicate IsDigit(c: char, radix: nat) {
    DigitValue(c).Some? && DigitValue(c).value < radix
  }

  predicate AllDigits(s: string, radix: nat) {
    forall i | 0 <= i < |s| :: IsDigit(s[i], radix)
  }

  /** The value of a string of digits, most significant first. */
  function DigitsValue(s: string, radix: nat): nat
    requires AllDigits(s, radix)
  {
    if s == [] then 0
    else DigitsValue(s[..|s| - 1], radix) * radix + DigitValue(s[|s| - 1]).value
  }

  /**
    `from_str_radix` of an unsigned type whose values lie below `bound`: an optional
    '+', then at least one digit of the radix; a value that does not fit fails.
  */
  function ParseUnsigned(s: string, radix: nat, bound: nat): (r: Option<nat>)
    ensures r.Some? ==> r.value < bound
    ensures r.Some? ==>
      var digits := if s != [] && s[0] == '+' then s[1..] else s;
      digits != [] && AllDigits(digits, radix) && r.value == DigitsValue(digits, radix)
  {
    var digits := if s != [] && s[0] == '+' then s[1..] else s;
    if digits == [] || !AllDigits(digits, radix) then None
    else
      var v := DigitsValue(digits, radix);
      if v < bound then Some(v) else None
  }

  const U32_BOUND: nat := 0x1_0000_0000
  const U64_BOUND: nat := 0x1_0000_0000_0000_0000

  /** `u64::from_str_radix(s, 16)`. */
  function ParseHexU64(s: string): Option<nat> {
    ParseUnsigned(s, 16, U64_BOUND)
  }

  /** `str::parse::<u32>()`. */
  function ParseU32(s: string): Option<nat> {
    ParseUnsigned(s, 10, U32_BOUND)
  }

  /** Euclidean division facts for a radix, stated once so that callers stay linear. */
  lemma DivModRadix(n: nat, radix: nat)
    requires 2 <= radix
    ensures n == (n / radix) * radix + n % radix && n % radix < radix
    ensures n >= radix ==> 1 <= n / radix < n
  {
    var q, m := n / radix, n % radix;
    assert n == q * radix + m;
    if n >= radix {
      assert q * radix >= q * 2 by {
        MulMonotone(q, 2, radix);
      }
    }
  }

  lemma MulMonotone(q: nat, a: nat, b: nat)
    requires a <= b
    ensures q * a <= q * b
  {
  }

  function DigitChar(d: nat): (c: char)
    requires d < 16
    ensures DigitValue(c) == Some(d)
  {
    if d < 10 then (('0' as int) + d) as char else (('a' as int) + d - 10) as char
  }

  /** The digits of `n` in `radix`, most significant first, with no leading zeros. */
  function ToDigits(n: nat, radix: nat): (s: string)
    requires 2 <= radix <= 16
    ensures s != [] && AllDigits(s, radix)
    ensures '+' !in s
  {
    if n < radix then [DigitChar(n)]
    else
      DivModRadix(n, radix);
      ToDigits(n / radix, radix) + [DigitChar(n % radix)]
  }

  /** The `Display` form of an unsigned integer. */
  function NatToString(n: nat): string {
    ToDigits(n, 10)
  }

  lemma {:induction false} DigitsValueOfToDigits(n: nat, radix: nat)
    requires 2 <= radix <= 16
    ensures DigitsValue(ToDigits(n, radix), radix) == n
    decreases n
  {
    if n >= radix {
      var s := ToDigits(n, radix);
      DivModRadix(n, radix);
      var front := ToDigits(n / radix, radix);
      assert s[..|s| - 1] == front;
      DigitsValueOfToDigits(n / radix, radix);
      assert DigitValue(s[|s| - 1]).value == n % radix;
    }
  }

  /** Formatting and then parsing an integer that fits gives it back. */
  lemma ParseToDigits(n: nat, radix: nat, bound: nat)
    requires 2 <= radix <= 16 && n < bound
    ensures ParseUnsigned(ToDigits(n, radix), radix, bound) == Some(n)
  {
    DigitsValueOfToDigits(n, radix);
  }

  // ----- Facts about particular strings -----

  lemma DigitsAreNotSpecial(n: nat, radix: nat)
    requires 2 <= radix <= 16
    ensures NoWhitespace(ToDigits(n, radix)) && '-' !in ToDigits(n, radix)
  {
    var s := ToDigits(n, radix);
    forall i | 0 <= i < |s| ensures !IsWhitespace(s[i]) && s[i] != '-' {
      assert IsDigit(s[i], radix);
    }
  }

  lemma {:induction false} IndexOfAfter(a: string, c: char, b: string)
    requires c !in a
    ensures IndexOf(a + [c] + b, c) == |a|
    decreases |a|
  {
    if a != [] {
      assert (a + [c] + b)[1..] == a[1..] + [c] + b;
      IndexOfAfter(a[1..], c, b);
    }
  }

  lemma TrimNoWhitespace(s: string)
    requires s != [] && NoWhitespace(s)
    ensures Trim(s) == s
  {
    TrimStartNoWhitespace(s);
  }

  lemma FirstTokenOfLine(token: string, rest: string)
    requires token != [] && NoWhitespace(token)
    ensures FirstToken(token + " " + rest) == Some(token)
  {
    var s := token + " " + rest;
    assert s[0] == token[0];
    TrimStartNoWhitespace(s);
    assert s == token + (" " + rest);
    assert s[..|token|] == token;
    TokenLengthOf(token, " " + rest);
  }

  lemma TrimStartNoWhitespace(s: string)
    requires s != [] && !IsWhitespace(s[0])
    ensures TrimStart(s) == s
  {
  }

  lemma {:induction false} TokenLengthOf(token: string, rest: string)
    requires NoWhitespace(token) && rest != [] && IsWhitespace(rest[0])
    ensures TokenLength(token + rest) == |token|
    decreases |token|
  {
    if token != [] {
      assert (token + rest)[1..] == token[1..] + rest;
      TokenLengthOf(token[1..], rest);
    }
  }

  lemma SplitOneDash(a: string, b: string)
    requires '-' !in a && '-' !in b
    ensures Split(a + "-" + b, '-') == [a, b]
  {
    var t := "-" + b;
    SplitNoSep(b, '-');
    assert t[0] == '-' && t[1..] == b;
    assert [[], b][1..] == [b];
    SplitPrefix(a, t, '-', [[], b]);
    assert a + "-" + b == a + t;
  }

  lemma {:induction false} SplitNoSep(s: string, sep: char)
    requires sep !in s
    ensures Split(s, sep) == [s]
  {
    if s != [] {
      SplitNoSep(s[1..], sep);
      assert s == [s[0]] + s[1..];
    }
  }

  lemma {:induction false} SplitPrefix(a: string, t: string, sep: char, parts: seq<string>)
    requires sep !in a && t != [] && t[0] == sep
    requires |parts| >= 1 && parts[0] == [] && Split(t[1..], sep) == parts[1..]
    ensures Split(a + t, sep) == [a] + parts[1..]
    decreases |a|
  {
    if a == [] {
      assert a + t == t;
    } else {
      assert (a + t)[1..] == a[1..] + t;
      SplitPrefix(a[1..], t, sep, parts);
      assert [a[0]] + a[1..] == a;
    }
  }
}
