/**
 * The string operations the application relies on, with JavaScript's meaning:
 * `trim`, `split` on one character, `join`, decimal rendering of numbers,
 * `padStart(2, '0')`, ASCII `toLowerCase`, `includes`, and the email pattern.
 */
module Text {

  /** JavaScript's white space and line terminators: what `trim` removes and `\s` matches. */
  predicate IsSpace(c: char)
  {
    c == ' ' || c == '\t' || c == '\n' || c == '\r' || c == '\U{000B}' || c == '\U{000C}'
    || c == '\U{00A0}' || c == '\U{1680}' || (0x2000 <= c as int && c as int <= 0x200A)
    || c == '\U{2028}' || c == '\U{2029}' || c == '\U{202F}' || c == '\U{205F}'
    || c == '\U{3000}' || c == '\U{FEFF}'
  }

  /** No white space at either end. */
  predicate IsTrimmed(s: string)
  {
    s == [] || (!IsSpace(s[0]) && !IsSpace(s[|s| - 1]))
  }

  predicate AllSpace(s: string)
  {
    forall i :: 0 <= i < |s| ==> IsSpace(s[i])
  }

  /** How many white-space characters the text starts with. */
  function LeadingSpaces(s: string): (n: nat)
    ensures n <= |s| && AllSpace(s[..n]) && (n < |s| ==> !IsSpace(s[n]))
  {
    if s != [] && IsSpace(s[0]) then 1 + LeadingSpaces(s[1..]) else 0
  }

  /** How many white-space characters the text ends with. */
  function TrailingSpaces(s: string): (n: nat)
    ensures n <= |s| && AllSpace(s[|s| - n..]) && (n < |s| ==> !IsSpace(s[|s| - 1 - n]))
  {
    if s != [] && IsSpace(s[|s| - 1]) then 1 + TrailingSpaces(s[..|s| - 1]) else 0
  }

  /** `s.trim()`: removes white space at both ends and nothing else. */
  function Trim(s: string): (r: string)
    ensures IsTrimmed(r)
    ensures r == [] <==> AllSpace(s)
    ensures forall i :: 0 <= i < |r| ==> r[i] in s
    ensures IsTrimmed(s) ==> r == s
  {
    var t := s[LeadingSpaces(s)..];
    t[..|t| - TrailingSpaces(t)]
  }

  /** Trimming only cuts white space off the two ends: the result is the slice of `s` between them. */
  lemma TrimCutsEdges(s: string)
    ensures exists a :: TrimmedAt(s, Trim(s), a)
  {
    var a := LeadingSpaces(s);
    var t := s[a..];
    var r := Trim(s);
    assert r == t[..|t| - TrailingSpaces(t)];
    assert s[a + |r|..] == t[|t| - TrailingSpaces(t)..];
    assert TrimmedAt(s, r, a);
  }

  /** `r` is `s` with `a` white-space characters cut before it and only white space after it. */
  predicate TrimmedAt(s: string, r: string, a: int)
  {
    0 <= a && a + |r| <= |s| && r == s[a..a + |r|] && AllSpace(s[..a]) && AllSpace(s[a + |r|..])
  }

  /** Trimming one more leading space off a trimmed text gives the text back. */
  lemma TrimSpaceBefore(t: string)
    requires IsTrimmed(t)
    ensures Trim(" " + t) == t
  {
    assert (" " + t)[1..] == t;
    assert LeadingSpaces(" " + t) == 1;
  }

  /** `parts.map(p => p.trim())`. */
  function TrimAll(parts: seq<string>): (r: seq<string>)
    ensures |r| == |parts| && forall i :: 0 <= i < |parts| ==> r[i] == Trim(parts[i])
  {
    seq(|parts|, i requires 0 <= i < |parts| => Trim(parts[i]))
  }

  /** Trimming piece by piece distributes over concatenation. */
  lemma TrimAllConcat(a: seq<string>, b: seq<string>)
    ensures TrimAll(a + b) == TrimAll(a) + TrimAll(b)
  {
  }

  /** The trimmed pieces of a split are trimmed and hold no separator. */
  lemma TrimmedPiecesClean(s: string, sep: char)
    ensures var pieces := TrimAll(Split(s, sep));
      forall k :: 0 <= k < |pieces| ==> IsTrimmed(pieces[k]) && sep !in pieces[k]
  {
  }

  /** The test `!s.trim()`: empty once white space is removed. */
  predicate IsBlank(s: string)
  {
    Trim(s) == []
  }

  /** A text with a character other than white space is not blank. */
  lemma NotBlankAt(s: string, i: nat)
    requires i < |s| && !IsSpace(s[i])
    ensures !IsBlank(s)
  {
  }

  /** `s.split(sep)` for a one-character separator: always at least one piece. */
  function Split(s: string, sep: char): (r: seq<string>)
    ensures |r| >= 1
    ensures forall i :: 0 <= i < |r| ==> sep !in r[i]
  {
    if s == [] then [""]
    else
      var rest := Split(s[1..], sep);
      if s[0] == sep then [""] + rest else [[s[0]] + rest[0]] + rest[1..]
  }

  /** `parts.join(sep)`; the empty list joins to "". */
  function Join(parts: seq<string>, sep: string): string
  {
    if parts == [] then ""
    else if |parts| == 1 then parts[0]
    else parts[0] + sep + Join(parts[1..], sep)
  }

  /** A character in no piece and not in the separator is not in the join. */
  lemma {:induction false} JoinAvoids(parts: seq<string>, sep: string, c: char)
    requires c !in sep && forall i :: 0 <= i < |parts| ==> c !in parts[i]
    ensures c !in Join(parts, sep)
  {
    if |parts| > 1 {
      JoinAvoids(parts[1..], sep, c);
    }
  }

  /** A join of a list whose first piece is non-empty starts with that piece's first character. */
  lemma JoinStart(parts: seq<string>, sep: string)
    requires parts != [] && parts[0] != []
    ensures Join(parts, sep) != [] && Join(parts, sep)[0] == parts[0][0]
  {
  }

  /** Joining the pieces of a split with the same separator gives back the text. */
  lemma {:induction false} JoinSplit(s: string, sep: char)
    ensures Join(Split(s, sep), [sep]) == s
  {
    if s != [] {
      JoinSplit(s[1..], sep);
      var rest := Split(s[1..], sep);
      if s[0] != sep {
        if |rest| == 1 {
          assert Split(s, sep) == [[s[0]] + rest[0]];
        } else {
          assert Split(s, sep)[1..] == rest[1..];
          assert Join(rest, [sep]) == rest[0] + [sep] + Join(rest[1..], [sep]);
        }
      }
    }
  }

  /** Splitting a join gives back the pieces, provided none contains the separator. */
  lemma {:induction false} SplitJoin(parts: seq<string>, sep: char)
    requires |parts| >= 1
    requires forall i :: 0 <= i < |parts| ==> sep !in parts[i]
    ensures Split(Join(parts, [sep]), sep) == parts
  {
    if |parts| == 1 {
      SplitNoSep(parts[0], sep);
    } else {
      SplitJoin(parts[1..], sep);
      SplitPrefix(parts[0], sep, Join(parts[1..], [sep]));
      assert parts == [parts[0]] + parts[1..];
    }
  }

  /** A text without the separator splits into itself. */
  lemma {:induction false} SplitNoSep(s: string, sep: char)
    requires sep !in s
    ensures Split(s, sep) == [s]
  {
    if s != [] {
      SplitNoSep(s[1..], sep);
      assert s[0] != sep;
      assert [s[0]] + s[1..] == s;
    }
  }

  /** `a + sep + b` splits into `a` followed by the pieces of `b`, when `a` has no separator. */
  lemma {:induction false} SplitPrefix(a: string, sep: char, b: string)
    requires sep !in a
    ensures Split(a + [sep] + b, sep) == [a] + Split(b, sep)
  {
    if a == [] {
      assert a + [sep] + b == [sep] + b;
      assert ([sep] + b)[1..] == b;
    } else {
      assert (a + [sep] + b)[1..] == a[1..] + [sep] + b;
      SplitPrefix(a[1..], sep, b);
      assert [a[0]] + a[1..] == a;
    }
  }

  /** The character for a decimal digit. */
  function Digit(d: nat): (c: char)
    requires d < 10
    ensures '0' <= c <= '9'
    ensures DigitValue(c) == d
  {
    "0123456789"[d]
  }

  /** The value of a decimal digit character (0 for any other character). */
  function DigitValue(c: char): nat
  {
    if '0' <= c <= '9' then (c as int - '0' as int) as nat else 0
  }

  /** The number a run of decimal digits spells, most significant digit first. */
  function DecimalValue(s: string): nat
  {
    if s == [] then 0 else 10 * DecimalValue(s[..|s| - 1]) + DigitValue(s[|s| - 1])
  }

  /** `String(n)` for a non-negative integer: its decimal digits without leading zeros. */
  function NatToString(n: nat): (r: string)
    ensures |r| >= 1
    ensures forall i :: 0 <= i < |r| ==> '0' <= r[i] <= '9'
    ensures n >= 10 <==> |r| >= 2
    ensures n >= 10 ==> r[0] != '0'
    ensures DecimalValue(r) == n
  {
    if n < 10 then
      [Digit(n)]
    else
      var r := NatToString(n / 10) + [Digit(n % 10)];
      assert r[..|r| - 1] == NatToString(n / 10);
      r
  }

  lemma DigitInjective(a: nat, b: nat)
    requires a < 10 && b < 10 && Digit(a) == Digit(b)
    ensures a == b
  {
  }

  /** Different numbers have different decimal renderings. */
  lemma {:induction false} NatToStringInjective(a: nat, b: nat)
    requires NatToString(a) == NatToString(b)
    ensures a == b
  {
    var s := NatToString(a);
    if a < 10 {
      DigitInjective(a, b);
    } else {
      assert s[..|s| - 1] == NatToString(a / 10) == NatToString(b / 10);
      NatToStringInjective(a / 10, b / 10);
      DigitInjective(a % 10, b % 10);
    }
  }

  predicate IsDigits(s: string)
  {
    forall i :: 0 <= i < |s| ==> '0' <= s[i] <= '9'
  }

  /**
   * A digit run followed by a non-digit is determined by the whole text: when
   * `x + [c] + y == x' + [c] + y'` with `x`, `x'` digits and `c` not a digit,
   * then `x == x'` and `y == y'`.
   */
  lemma DigitRunUnique(x: string, y: string, x': string, y': string, c: char)
    requires IsDigits(x) && IsDigits(x') && !('0' <= c <= '9')
    requires x + [c] + y == x' + [c] + y'
    ensures x == x' && y == y'
  {
    var t := x + [c] + y;
    assert |x| == |x'| by {
      assert t[|x|] == c && t[|x'|] == c;
    }
    assert x == t[..|x|] == x';
    assert y == t[|x| + 1..] == y';
  }

  /** `s.padStart(2, '0')`. */
  function PadStart2(s: string): (r: string)
    ensures |r| == if |s| < 2 then 2 else |s|
  {
    if |s| == 0 then "00" else if |s| == 1 then "0" + s else s
  }

  /** A number below 100, rendered and zero-padded to two places, is its two digits. */
  lemma TwoDigits(n: nat)
    requires n < 100
    ensures PadStart2(NatToString(n)) == [Digit(n / 10), Digit(n % 10)]
  {
    if n >= 10 {
      assert NatToString(n / 10) == [Digit(n / 10)];
    }
  }

  /** Two-digit renderings tell numbers below 100 apart. */
  lemma TwoDigitsInjective(a: nat, b: nat)
    requires a < 100 && b < 100
    requires [Digit(a / 10), Digit(a % 10)] == [Digit(b / 10), Digit(b % 10)]
    ensures a == b
  {
    assert Digit(a / 10) == Digit(b / 10) && Digit(a % 10) == Digit(b % 10);
    DigitInjective(a / 10, b / 10);
    DigitInjective(a % 10, b % 10);
    assert a == 10 * (a / 10) + a % 10 && b == 10 * (b / 10) + b % 10;
  }

  /** `toLowerCase` on the ASCII letters; other characters are kept. */
  function ToLowerAscii(s: string): (r: string)
    ensures |r| == |s|
    ensures forall i :: 0 <= i < |s| ==> r[i] == if 'A' <= s[i] <= 'Z' then (s[i] - 'A' + 'a') as char else s[i]
  {
    seq(|s|, i requires 0 <= i < |s| => if 'A' <= s[i] <= 'Z' then (s[i] - 'A' + 'a') as char else s[i])
  }

  /** `sub` occurs in `s` starting at index `i`. */
  predicate OccursAt(s: string, sub: string, i: int)
  {
    0 <= i <= |s| - |sub| && s[i..i + |sub|] == sub
  }

  /** `s.includes(sub)`. */
  predicate Contains(s: string, sub: string)
  {
    exists i :: 0 <= i <= |s| - |sub| && OccursAt(s, sub, i)
  }

  /** Every text contains itself. */
  lemma ContainsSelf(s: string)
    ensures Contains(s, s)
  {
    assert OccursAt(s, s, 0);
  }

  /** What the left part of a concatenation contains, the whole contains. */
  lemma ContainsLeft(x: string, y: string, sub: string)
    requires Contains(x, sub)
    ensures Contains(x + y, sub)
  {
    var i :| 0 <= i <= |x| - |sub| && OccursAt(x, sub, i);
    assert (x + y)[i..i + |sub|] == x[i..i + |sub|];
    assert OccursAt(x + y, sub, i);
  }

  /** What the right part of a concatenation contains, the whole contains. */
  lemma ContainsRight(x: string, y: string, sub: string)
    requires Contains(y, sub)
    ensures Contains(x + y, sub)
  {
    var i :| 0 <= i <= |y| - |sub| && OccursAt(y, sub, i);
    assert (x + y)[|x| + i..|x| + i + |sub|] == y[i..i + |sub|];
    assert OccursAt(x + y, sub, |x| + i);
  }

  /**
   * The unanchored pattern `\S+@\S+\.\S+`: somewhere in `s` there is a non-space
   * character, then "@", then a run of one or more non-space characters, then ".",
   * then a non-space character. (`\S` matches "@" and "." too.)
   */
  predicate EmailPattern(s: string)
  {
    exists at, dot :: 1 <= at && at + 1 < dot && dot + 1 < |s| && EmailShapeAt(s, at, dot)
  }

  /** "@" at `at`, "." at `dot`, non-space before the "@", after the ".", and all in between. */
  predicate EmailShapeAt(s: string, at: int, dot: int)
    requires 1 <= at && at + 1 < dot && dot + 1 < |s|
  {
    s[at] == '@' && s[dot] == '.' && !IsSpace(s[at - 1]) && !IsSpace(s[dot + 1])
    && NoSpaceBetween(s, at, dot)
  }

  /** No white space strictly between indices `lo` and `hi`. */
  predicate NoSpaceBetween(s: string, lo: int, hi: int)
    requires 0 <= lo <= hi <= |s|
  {
    forall k :: lo < k < hi ==> !IsSpace(s[k])
  }
}
