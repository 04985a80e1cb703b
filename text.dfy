/** String helpers with Python's semantics: str.strip(), str.lower() as far as
    comparisons against ASCII words go, str.replace() of one character,
    str.split(sep), decimal digits and their rendering. */
module Text {

  datatype Option<+T> = None | Some(value: T)

  /** Python's str.isspace() for one character. */
  predicate IsSpace(c: char) {
    var n := c as int;
    (9 <= n <= 13) || (28 <= n <= 32) || n == 133 || n == 160 || n == 5760
    || (8192 <= n <= 8202) || n == 8232 || n == 8233 || n == 8239 || n == 8287 || n == 12288
  }

  /** Number of white-space characters that start s. */
  function LeadingSpace(s: string): (n: nat)
    ensures n <= |s|
    ensures n < |s| ==> !IsSpace(s[n])
  {
    if |s| > 0 && IsSpace(s[0]) then 1 + LeadingSpace(s[1..]) else 0
  }

  /** Number of white-space characters that end s. */
  function TrailingSpace(s: string): (n: nat)
    ensures n <= |s|
    ensures n < |s| ==> !IsSpace(s[|s| - 1 - n])
  {
    if |s| > 0 && IsSpace(s[|s| - 1]) then 1 + TrailingSpace(s[..|s| - 1]) else 0
  }

  /** Python's str.strip() without arguments. */
  function Strip(s: string): (r: string)
    ensures r == [] || (!IsSpace(r[0]) && !IsSpace(r[|r| - 1]))
  {
    var t := s[LeadingSpace(s)..];
    t[..|t| - TrailingSpace(t)]
  }

  /** A string with no white space at either end is its own strip. */
  lemma StripUnchanged(s: string)
    requires s == [] || (!IsSpace(s[0]) && !IsSpace(s[|s| - 1]))
    ensures Strip(s) == s
  {
  }

  /** Lower-cases ASCII letters and the Kelvin sign (U+212A), the one other
      character whose Unicode lower case is a single ASCII letter. Lower-cased
      strings are only ever compared with ASCII words, so this gives the same
      verdicts as Python's str.lower(). */
  function LowerChar(c: char): char {
    if 'A' <= c <= 'Z' then (c as int + 32) as char
    else if c == '\U{212A}' then 'k'
    else c
  }

  function Lower(s: string): (r: string)
    ensures |r| == |s| && forall i :: 0 <= i < |s| ==> r[i] == LowerChar(s[i])
  {
    if s == [] then [] else [LowerChar(s[0])] + Lower(s[1..])
  }

  /** Python's s.replace(c, "") for one character c. */
  function RemoveAll(s: string, c: char): (r: string)
    ensures |r| <= |s|
    ensures c !in r
    ensures c !in s ==> r == s
  {
    if s == [] then []
    else if s[0] == c then RemoveAll(s[1..], c)
    else [s[0]] + RemoveAll(s[1..], c)
  }

  lemma {:induction false} RemoveAllAppend(a: string, b: string, c: char)
    ensures RemoveAll(a + b, c) == RemoveAll(a, c) + RemoveAll(b, c)
  {
    if a == [] {
      assert a + b == b;
    } else {
      var ab := a + b;
      assert ab[0] == a[0] && ab[1..] == a[1..] + b;
      RemoveAllAppend(a[1..], b, c);
      if a[0] != c {
        calc {
          RemoveAll(ab, c);
          [a[0]] + RemoveAll(a[1..] + b, c);
          [a[0]] + (RemoveAll(a[1..], c) + RemoveAll(b, c));
          ([a[0]] + RemoveAll(a[1..], c)) + RemoveAll(b, c);
        }
      }
    }
  }

  /** Python's s.replace(a, b) for single characters a and b. */
  function ReplaceChar(s: string, a: char, b: char): (r: string)
    ensures |r| == |s|
    ensures forall i :: 0 <= i < |s| ==> r[i] == (if s[i] == a then b else s[i])
  {
    if s == [] then [] else [if s[0] == a then b else s[0]] + ReplaceChar(s[1..], a, b)
  }

  /** Python's s.split(sep) for a one-character separator: the pieces
      between separators, empty ones included, never an empty list. */
  function Split(s: string, sep: char): (r: seq<string>)
    ensures |r| >= 1
  {
    if s == [] then [""]
    else
      var rest := Split(s[1..], sep);
      if s[0] == sep then [""] + rest else [[s[0]] + rest[0]] + rest[1..]
  }

  /** Python's sep.join(parts). */
  function Join(parts: seq<string>, sep: char): string {
    if |parts| == 0 then ""
    else if |parts| == 1 then parts[0]
    else parts[0] + [sep] + Join(parts[1..], sep)
  }

  lemma {:induction false} SplitNoSeparator(s: string, sep: char)
    requires sep !in s
    ensures Split(s, sep) == [s]
  {
    if s != [] {
      SplitNoSeparator(s[1..], sep);
      assert [s[0]] + s[1..] == s;
    }
  }

  lemma {:induction false} SplitAfterPiece(a: string, b: string, sep: char)
    requires sep !in a
    ensures Split(a + [sep] + b, sep) == [a] + Split(b, sep)
  {
    if a == [] {
      assert a + [sep] + b == [sep] + b;
      assert ([sep] + b)[1..] == b;
    } else {
      SplitAfterPiece(a[1..], b, sep);
      assert (a + [sep] + b)[1..] == a[1..] + [sep] + b;
      assert [a[0]] + a[1..] == a;
    }
  }

  /** Splitting undoes joining when no piece holds the separator. */
  lemma {:induction false} SplitJoin(parts: seq<string>, sep: char)
    requires |parts| >= 1
    requires forall i :: 0 <= i < |parts| ==> sep !in parts[i]
    ensures Split(Join(parts, sep), sep) == parts
  {
    if |parts| == 1 {
      SplitNoSeparator(parts[0], sep);
    } else {
      SplitJoin(parts[1..], sep);
      SplitAfterPiece(parts[0], Join(parts[1..], sep), sep);
      assert [parts[0]] + parts[1..] == parts;
    }
  }

  /** How many characters of s belong to cs. */
  function Count(s: string, cs: set<char>): nat {
    if s == [] then 0 else (if s[0] in cs then 1 else 0) + Count(s[1..], cs)
  }

  lemma {:induction false} CountAppend(a: string, b: string, cs: set<char>)
    ensures Count(a + b, cs) == Count(a, cs) + Count(b, cs)
  {
    if a == [] {
      assert a + b == b;
    } else {
      assert (a + b)[1..] == a[1..] + b;
      CountAppend(a[1..], b, cs);
    }
  }

  lemma {:induction false} CountNone(s: string, cs: set<char>)
    requires forall i :: 0 <= i < |s| ==> s[i] !in cs
    ensures Count(s, cs) == 0
  {
    if s != [] {
      CountNone(s[1..], cs);
    }
  }

  lemma {:induction false} CountLeadingSpace(s: string, cs: set<char>)
    requires forall c :: c in cs ==> !IsSpace(c)
    ensures Count(s[LeadingSpace(s)..], cs) == Count(s, cs)
  {
    if |s| > 0 && IsSpace(s[0]) {
      CountLeadingSpace(s[1..], cs);
      assert s[LeadingSpace(s)..] == s[1..][LeadingSpace(s[1..])..];
    }
  }

  lemma {:induction false} CountTrailingSpace(s: string, cs: set<char>)
    requires forall c :: c in cs ==> !IsSpace(c)
    ensures Count(s[..|s| - TrailingSpace(s)], cs) == Count(s, cs)
  {
    if |s| > 0 && IsSpace(s[|s| - 1]) {
      var init := s[..|s| - 1];
      CountTrailingSpace(init, cs);
      assert s[..|s| - TrailingSpace(s)] == init[..|init| - TrailingSpace(init)];
      assert s == init + [s[|s| - 1]];
      CountAppend(init, [s[|s| - 1]], cs);
      assert Count([s[|s| - 1]], cs) == 0 by {
        assert [s[|s| - 1]][1..] == [];
      }
    } else {
      assert s[..|s|] == s;
    }
  }

  /** Stripping white space keeps every character that is not white space. */
  lemma CountStrip(s: string, cs: set<char>)
    requires forall c :: c in cs ==> !IsSpace(c)
    ensures Count(Strip(s), cs) == Count(s, cs)
  {
    CountLeadingSpace(s, cs);
    CountTrailingSpace(s[LeadingSpace(s)..], cs);
  }

  /** Removing a character outside cs keeps the count of cs. */
  lemma {:induction false} CountRemoveAll(s: string, c: char, cs: set<char>)
    requires c !in cs
    ensures Count(RemoveAll(s, c), cs) == Count(s, cs)
  {
    if s != [] {
      CountRemoveAll(s[1..], c, cs);
      if s[0] != c {
        assert ([s[0]] + RemoveAll(s[1..], c))[1..] == RemoveAll(s[1..], c);
      }
    }
  }

  /** After replacing a by b, the b's are the old a's and b's together. */
  lemma {:induction false} CountReplaceChar(s: string, a: char, b: char)
    requires a != b
    ensures Count(ReplaceChar(s, a, b), {b}) == Count(s, {a, b})
  {
    if s != [] {
      CountReplaceChar(s[1..], a, b);
      assert ReplaceChar(s, a, b)[1..] == ReplaceChar(s[1..], a, b);
    }
  }

  /** Lower-casing keeps the count of characters that are not letters. */
  lemma {:induction false} CountLower(s: string, cs: set<char>)
    requires forall c :: c in cs ==> !('A' <= c <= 'Z') && !('a' <= c <= 'z') && c != '\U{212A}'
    ensures Count(Lower(s), cs) == Count(s, cs)
  {
    if s != [] {
      CountLower(s[1..], cs);
      assert Lower(s)[1..] == Lower(s[1..]);
    }
  }

  predicate IsDigit(c: char) {
    '0' <= c <= '9'
  }

  predicate AllDigits(s: string) {
    forall i :: 0 <= i < |s| ==> IsDigit(s[i])
  }

  /** Length of the run of decimal digits that starts s. */
  function DigitRun(s: string): (n: nat)
    ensures n <= |s| && AllDigits(s[..n])
    ensures n < |s| ==> !IsDigit(s[n])
  {
    if s != [] && IsDigit(s[0]) then
      var k := DigitRun(s[1..]);
      assert s[..k + 1] == [s[0]] + s[1..][..k];
      k + 1
    else 0
  }

  lemma {:induction false} DigitRunOfPrefix(a: string, b: string)
    requires AllDigits(a)
    requires b == [] || !IsDigit(b[0])
    ensures DigitRun(a + b) == |a|
  {
    if a != [] {
      assert (a + b)[1..] == a[1..] + b;
      DigitRunOfPrefix(a[1..], b);
    }
  }

  /** Value of a string of decimal digits, read most significant first. */
  function DigitsValue(s: string): nat
    requires AllDigits(s)
  {
    if s == [] then 0 else 10 * DigitsValue(s[..|s| - 1]) + (s[|s| - 1] as int - '0' as int)
  }

  function DigitChar(d: nat): (c: char)
    requires d < 10
    ensures IsDigit(c) && c as int - '0' as int == d
  {
    ('0' as int + d) as char
  }

  /** Python's f"{n}" for a natural number. */
  function NatToString(n: nat): (s: string)
    ensures |s| >= 1 && AllDigits(s)
  {
    if n < 10 then [DigitChar(n)] else NatToString(n / 10) + [DigitChar(n % 10)]
  }

  /** Reading back the rendering of n gives n. */
  lemma {:induction false} NatToStringValue(n: nat)
    ensures DigitsValue(NatToString(n)) == n
  {
    if n >= 10 {
      NatToStringValue(n / 10);
      var s := NatToString(n);
      assert s[..|s| - 1] == NatToString(n / 10);
    }
  }

  /** The rendering has exactly as many digits as the magnitude says. */
  lemma {:induction false} NatToStringLength(n: nat)
    ensures n < 10 ==> |NatToString(n)| == 1
    ensures 10 <= n < 100 ==> |NatToString(n)| == 2
    ensures 1000 <= n < 10000 ==> |NatToString(n)| == 4
  {
    if n >= 10 {
      NatToStringLength(n / 10);
      if n >= 1000 {
        NatToStringLength(n / 100);
      }
    }
  }

  /** Python's f"{n:02d}" for 0 <= n < 100. */
  function Pad2(n: nat): (s: string)
    requires n < 100
    ensures |s| == 2 && AllDigits(s) && DigitsValue(s) == n
  {
    if n < 10 then
      var s := [DigitChar(0), DigitChar(n)];
      assert s[..1] == [DigitChar(0)] && [DigitChar(0)][..0] == [];
      s
    else
      NatToStringLength(n);
      NatToStringValue(n);
      NatToString(n)
  }
}
