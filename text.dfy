/** The Python string operations the generators rely on, over `seq<char>`.
    Letters are ASCII: `str.lower`, `str.title` and `\w` are modelled on the ASCII range only.
    Whitespace (`\s`, `str.isspace`, `str.strip`, `str.split`) is Python's full set, and the
    regular-expression `\d` is every Unicode decimal digit (`IsDecimal`); `IsDigit` is the ASCII
    digits that `str()` of an integer writes. */
module Text {

  /** `str.lower` on one character (ASCII letters only). */
  function LowerChar(c: char): char {
    if 'A' <= c <= 'Z' then (c as int + 32) as char else c
  }

  function UpperChar(c: char): char {
    if 'a' <= c <= 'z' then (c as int - 32) as char else c
  }

  function Lower(s: string): (r: string)
    ensures |r| == |s|
    ensures forall i :: 0 <= i < |s| ==> r[i] == LowerChar(s[i])
  {
    if s == [] then [] else [LowerChar(s[0])] + Lower(s[1..])
  }

  predicate IsLetter(c: char) {
    'a' <= c <= 'z' || 'A' <= c <= 'Z'
  }

  /** ASCII digits, as `str()` of an integer writes them. */
  predicate IsDigit(c: char) {
    '0' <= c <= '9'
  }

  /** `c` is one of the ten characters starting at `zero`. */
  predicate TenFrom(c: char, zero: char) {
    zero <= c && c as int < zero as int + 10
  }

  /** A list of the zeros of runs of ten digits. */
  datatype Zeros = NoZeros | Zero(zero: char, rest: Zeros)

  /** The zeros of the non-ASCII runs of ten decimal digits in Unicode 15 outside the
      mathematical block: fullwidth first, then in code-point order Arabic-Indic, the Indic and
      South-East Asian scripts, and the rest. */
  const DigitZeros: Zeros :=
    Zero('\U{FF10}', Zero('\U{0660}', Zero('\U{06F0}', Zero('\U{07C0}', Zero('\U{0966}',
    Zero('\U{09E6}', Zero('\U{0A66}', Zero('\U{0AE6}', Zero('\U{0B66}', Zero('\U{0BE6}',
    Zero('\U{0C66}', Zero('\U{0CE6}', Zero('\U{0D66}', Zero('\U{0DE6}', Zero('\U{0E50}',
    Zero('\U{0ED0}', Zero('\U{0F20}', Zero('\U{1040}', Zero('\U{1090}', Zero('\U{17E0}',
    Zero('\U{1810}', Zero('\U{1946}', Zero('\U{19D0}', Zero('\U{1A80}', Zero('\U{1A90}',
    Zero('\U{1B50}', Zero('\U{1BB0}', Zero('\U{1C40}', Zero('\U{1C50}', Zero('\U{A620}',
    Zero('\U{A8D0}', Zero('\U{A900}', Zero('\U{A9D0}', Zero('\U{A9F0}', Zero('\U{AA50}',
    Zero('\U{ABF0}', Zero('\U{104A0}', Zero('\U{10D30}', Zero('\U{11066}', Zero('\U{110F0}',
    Zero('\U{11136}', Zero('\U{111D0}', Zero('\U{112F0}', Zero('\U{11450}', Zero('\U{114D0}',
    Zero('\U{11650}', Zero('\U{116C0}', Zero('\U{11730}', Zero('\U{118E0}', Zero('\U{11950}',
    Zero('\U{11C50}', Zero('\U{11D50}', Zero('\U{11DA0}', Zero('\U{11F50}', Zero('\U{16A60}',
    Zero('\U{16AC0}', Zero('\U{16B50}', Zero('\U{1E140}', Zero('\U{1E2F0}', Zero('\U{1E4F0}',
    Zero('\U{1E950}', Zero('\U{1FBF0}', NoZeros))))))))))))))))))))))))))))))))))))))))))))))))))))))))))))))

  /** Python's `\d` in a `str` pattern: a character of Unicode category Nd (Unicode 15, the
      database of Python 3.12 and 3.13): the ASCII digits, the mathematical digits U+1D7CE to
      U+1D7FF, and the other scripts' runs of ten. */
  predicate IsDecimal(c: char) {
    IsDigit(c) || '\U{1D7CE}' <= c <= '\U{1D7FF}' || InDigitRuns(c, DigitZeros)
  }

  /** `c` is in one of the runs of ten that start at the zeros of `zeros`. */
  predicate InDigitRuns(c: char, zeros: Zeros) {
    zeros.Zero? && (TenFrom(c, zeros.zero) || InDigitRuns(c, zeros.rest))
  }

  /** The ASCII digits that `str()` writes and the fullwidth digits are all matched by `\d`. */
  lemma DecimalDigits(c: char)
    ensures IsDigit(c) ==> IsDecimal(c)
    ensures '\U{FF10}' <= c <= '\U{FF19}' ==> IsDecimal(c)
  {
    if '\U{FF10}' <= c <= '\U{FF19}' {
      assert DigitZeros.zero == '\U{FF10}';
    }
  }

  /** Every character of `t` is matched by `\d`. */
  predicate AllDecimal(t: string) {
    forall k :: 0 <= k < |t| ==> IsDecimal(t[k])
  }

  /** A string of fullwidth digits is a string of `\d` characters. */
  lemma FullwidthDecimals(t: string)
    requires forall k :: 0 <= k < |t| ==> '\U{FF10}' <= t[k] <= '\U{FF19}'
    ensures AllDecimal(t)
  {
    forall k | 0 <= k < |t| {
      DecimalDigits(t[k]);
    }
  }

  /** Python's `\w` (letters, digits, underscore). */
  predicate IsWordChar(c: char) {
    IsLetter(c) || IsDigit(c) || c == '_'
  }

  /** Python's `\s` and `str.isspace`: tab to carriage return, the four ASCII separators
      \x1c to \x1f, space, and the Unicode spaces and line or paragraph separators. */
  predicate IsSpace(c: char) {
    c == ' ' || '\t' <= c <= '\r' || '\U{1C}' <= c <= '\U{1F}' || c == '\U{85}' || c == '\U{A0}'
    || c == '\U{1680}' || '\U{2000}' <= c <= '\U{200A}' || c == '\U{2028}' || c == '\U{2029}'
    || c == '\U{202F}' || c == '\U{205F}' || c == '\U{3000}'
  }

  function StripLeft(s: string): (r: string)
    ensures |r| <= |s|
    ensures r != [] ==> !IsSpace(r[0])
    decreases |s|
  {
    if s != [] && IsSpace(s[0]) then StripLeft(s[1..]) else s
  }

  function StripRight(s: string): (r: string)
    ensures |r| <= |s|
    ensures r != [] ==> !IsSpace(r[|r| - 1])
    decreases |s|
  {
    if s != [] && IsSpace(s[|s| - 1]) then StripRight(s[..|s| - 1]) else s
  }

  /** `lstrip` removes exactly the leading whitespace: what is left is a suffix, and every
      character cut off is whitespace. */
  lemma {:induction false} StripLeftSpec(s: string)
    ensures var r := StripLeft(s);
      r == s[|s| - |r|..] && forall k :: 0 <= k < |s| - |r| ==> IsSpace(s[k])
    decreases |s|
  {
    if s != [] && IsSpace(s[0]) {
      StripLeftSpec(s[1..]);
      var r := StripLeft(s[1..]);
      forall k | 1 <= k < |s| - |r| ensures IsSpace(s[k]) {
        assert s[1..][k - 1] == s[k];
      }
    }
  }

  /** `rstrip` removes exactly the trailing whitespace. */
  lemma {:induction false} StripRightSpec(s: string)
    ensures var r := StripRight(s);
      r == s[..|r|] && forall k :: |r| <= k < |s| ==> IsSpace(s[k])
    decreases |s|
  {
    if s != [] && IsSpace(s[|s| - 1]) {
      StripRightSpec(s[..|s| - 1]);
      var r := StripRight(s[..|s| - 1]);
      forall k | |r| <= k < |s| - 1 ensures IsSpace(s[k]) {
        assert s[..|s| - 1][k] == s[k];
      }
    }
  }

  /** `str.strip()` with no argument. */
  function Strip(s: string): string {
    StripRight(StripLeft(s))
  }

  predicate StartsWith(s: string, prefix: string) {
    |prefix| <= |s| && s[..|prefix|] == prefix
  }

  /** Python's `needle in haystack` for strings. */
  predicate Contains(haystack: string, needle: string)
    decreases |haystack|
  {
    StartsWith(haystack, needle) || (haystack != [] && Contains(haystack[1..], needle))
  }

  /** `any(keyword in text for keyword in keywords)`. */
  predicate AnyIn(text: string, keywords: seq<string>) {
    exists k :: 0 <= k < |keywords| && Contains(text, keywords[k])
  }

  /** An `if ... elif ... else` chain of keyword tests: the label of the first rule that has a
      keyword in `text`, or `fallback` when none has. */
  function FirstMatch(text: string, rules: seq<(seq<string>, string)>, fallback: string): (r: string)
    ensures r == fallback || exists k :: 0 <= k < |rules| && r == rules[k].1
    ensures (forall k :: 0 <= k < |rules| ==> !AnyIn(text, rules[k].0)) ==> r == fallback
    ensures forall k :: (0 <= k < |rules| && AnyIn(text, rules[k].0)
      && forall j :: 0 <= j < k ==> !AnyIn(text, rules[j].0)) ==> r == rules[k].1
    decreases |rules|
  {
    if rules == [] then fallback
    else if AnyIn(text, rules[0].0) then rules[0].1
    else FirstMatch(text, rules[1..], fallback)
  }

  /** `sep.join(parts)`. */
  function Join(parts: seq<string>, sep: string): string
    decreases |parts|
  {
    if |parts| == 0 then ""
    else if |parts| == 1 then parts[0]
    else parts[0] + sep + Join(parts[1..], sep)
  }

  function IndexOf(s: string, c: char): (i: nat)
    requires c in s
    ensures i < |s| && s[i] == c && c !in s[..i]
  {
    if s[0] == c then 0 else 1 + IndexOf(s[1..], c)
  }

  /** `s.split(c)` for a one-character separator: always at least one part. */
  function Split(s: string, c: char): (parts: seq<string>)
    ensures |parts| >= 1
    ensures forall k :: 0 <= k < |parts| ==> c !in parts[k]
    decreases |s|
  {
    if c !in s then [s]
    else
      var i := IndexOf(s, c);
      [s[..i]] + Split(s[i + 1..], c)
  }

  /** Joining one more part appends the separator and that part. */
  lemma {:induction false} JoinSnoc(parts: seq<string>, x: string, sep: string)
    requires parts != []
    ensures Join(parts + [x], sep) == Join(parts, sep) + sep + x
    ensures Join(parts + [x], sep) == Join(parts, sep) + (sep + x)
    decreases |parts|
  {
    if |parts| == 1 {
      assert (parts + [x])[1..] == [x];
    } else {
      assert (parts + [x])[1..] == parts[1..] + [x];
      JoinSnoc(parts[1..], x, sep);
    }
  }

  /** The last part of a join of two or more parts follows the last separator. */
  lemma {:induction false} JoinLast(parts: seq<string>, sep: string)
    requires |parts| >= 2
    ensures Join(parts, sep) == Join(parts[..|parts| - 1], sep) + sep + parts[|parts| - 1]
  {
    var n := |parts| - 1;
    assert parts[..n] + [parts[n]] == parts;
    JoinSnoc(parts[..n], parts[n], sep);
  }

  /** Joining the parts of a split with the separator gives the string back. */
  lemma {:induction false} JoinSplit(s: string, c: char)
    ensures Join(Split(s, c), [c]) == s
    decreases |s|
  {
    if c in s {
      var i := IndexOf(s, c);
      var rest := Split(s[i + 1..], c);
      JoinSplit(s[i + 1..], c);
      assert Split(s, c) == [s[..i]] + rest;
      assert ([s[..i]] + rest)[1..] == rest;
      assert s == s[..i] + [c] + s[i + 1..];
    }
  }

  /** Joining two more parts appends the separator and the part, twice. */
  lemma {:induction false} JoinSnoc2(parts: seq<string>, x: string, y: string, sep: string)
    requires parts != []
    ensures Join(parts + [x] + [y], sep) == Join(parts, sep) + (sep + x + sep + y)
  {
    JoinSnoc(parts, x, sep);
    JoinSnoc(parts + [x], y, sep);
  }

  /** Joining two non-empty lists of parts is joining each and putting the separator between. */
  lemma {:induction false} JoinConcat(a: seq<string>, b: seq<string>, sep: string)
    requires a != [] && b != []
    ensures Join(a + b, sep) == Join(a, sep) + sep + Join(b, sep)
    decreases |a|
  {
    if |a| == 1 {
      assert (a + b)[1..] == b;
    } else {
      assert (a + b)[1..] == a[1..] + b;
      JoinConcat(a[1..], b, sep);
    }
  }

  /** Splitting a join of parts free of the separator gives the parts back. */
  lemma {:induction false} SplitJoin(parts: seq<string>, c: char)
    requires parts != []
    requires forall k :: 0 <= k < |parts| ==> c !in parts[k]
    ensures Split(Join(parts, [c]), c) == parts
    decreases |parts|
  {
    if |parts| > 1 {
      var s := Join(parts, [c]);
      var rest := Join(parts[1..], [c]);
      assert s == parts[0] + [c] + rest;
      assert s[|parts[0]|] == c;
      var i := IndexOf(s, c);
      assert s[..|parts[0]|] == parts[0];
      assert i == |parts[0]|;
      assert s[i + 1..] == rest;
      SplitJoin(parts[1..], c);
    }
  }

  function NonSpacePrefix(s: string): (n: nat)
    ensures n <= |s|
    ensures forall k :: 0 <= k < n ==> !IsSpace(s[k])
    ensures n < |s| ==> IsSpace(s[n])
  {
    if s == [] || IsSpace(s[0]) then 0 else 1 + NonSpacePrefix(s[1..])
  }

  /** `s.split()` with no argument: the maximal runs of non-space characters. */
  function Words(s: string): (ws: seq<string>)
    ensures forall k :: 0 <= k < |ws| ==> ws[k] != []
    decreases |s|
  {
    var t := StripLeft(s);
    if t == [] then []
    else
      var n := NonSpacePrefix(t);
      [t[..n]] + Words(t[n..])
  }

  function TitleFrom(s: string, afterLetter: bool): (r: string)
    ensures |r| == |s|
  {
    if s == [] then []
    else
      var c := if !IsLetter(s[0]) then s[0] else if afterLetter then LowerChar(s[0]) else UpperChar(s[0]);
      [c] + TitleFrom(s[1..], IsLetter(s[0]))
  }

  /** `str.title()`: a letter is upper-cased at the start of a run of letters, lower-cased inside it. */
  function Title(s: string): string {
    TitleFrom(s, false)
  }

  /** `s.replace(c, r)` for a one-character pattern. */
  function ReplaceChar(s: string, c: char, r: string): string {
    if s == [] then [] else (if s[0] == c then r else [s[0]]) + ReplaceChar(s[1..], c, r)
  }

  lemma {:induction false} ReplaceCharConcat(a: string, b: string, c: char, r: string)
    ensures ReplaceChar(a + b, c, r) == ReplaceChar(a, c, r) + ReplaceChar(b, c, r)
  {
    if a == [] {
      assert a + b == b;
    } else {
      assert (a + b)[1..] == a[1..] + b;
      ReplaceCharConcat(a[1..], b, c, r);
      assert ReplaceChar(a + b, c, r) == (if a[0] == c then r else [a[0]]) + ReplaceChar(a[1..] + b, c, r);
    }
  }

  lemma {:induction false} ReplaceCharAbsent(s: string, c: char, r: string)
    requires c !in s
    ensures ReplaceChar(s, c, r) == s
  {
    if s != [] {
      ReplaceCharAbsent(s[1..], c, r);
    }
  }

  /** `s.replace(pattern, replacement)` for a non-empty pattern: leftmost, non-overlapping. */
  function ReplaceAll(s: string, pattern: string, replacement: string): string
    requires |pattern| > 0
    decreases |s|
  {
    if |s| < |pattern| then s
    else if s[..|pattern|] == pattern then replacement + ReplaceAll(s[|pattern|..], pattern, replacement)
    else [s[0]] + ReplaceAll(s[1..], pattern, replacement)
  }

  /** A leading occurrence of the pattern is replaced, and the rest is processed on its own. */
  lemma {:induction false} ReplaceAllPrefix(s: string, pattern: string, replacement: string)
    requires |pattern| > 0 && StartsWith(s, pattern)
    ensures ReplaceAll(s, pattern, replacement) == replacement + ReplaceAll(s[|pattern|..], pattern, replacement)
  {
  }

  lemma {:induction false} ReplaceAllAbsent(s: string, pattern: string, replacement: string)
    requires |pattern| > 0 && !Contains(s, pattern)
    ensures ReplaceAll(s, pattern, replacement) == s
    decreases |s|
  {
    if |s| >= |pattern| {
      assert !StartsWith(s, pattern);
      ReplaceAllAbsent(s[1..], pattern, replacement);
    }
  }

  function DigitChar(d: nat): char
    requires d < 10
  {
    ('0' as int + d) as char
  }

  /** `str(n)` for a natural number. */
  function NatToString(n: nat): (r: string)
    ensures |r| >= 1
    ensures forall k :: 0 <= k < |r| ==> IsDigit(r[k])
  {
    if n < 10 then [DigitChar(n)] else NatToString(n / 10) + [DigitChar(n % 10)]
  }

  /** `str(n)` for an integer. */
  function IntToString(n: int): string {
    if n < 0 then "-" + NatToString(-n) else NatToString(n)
  }

  /** The concatenation `f(s[0]) + ... + f(s[|s|-1])`, as built by a loop that appends. */
  function ConcatMap<T>(s: seq<T>, f: T -> string): string {
    if s == [] then "" else ConcatMap(s[..|s| - 1], f) + f(s[|s| - 1])
  }

  lemma {:induction false} ConcatMapSnoc<T>(s: seq<T>, x: T, f: T -> string)
    ensures ConcatMap(s + [x], f) == ConcatMap(s, f) + f(x)
  {
    assert (s + [x])[..|s|] == s;
  }

  predicate NoNewline(s: string) {
    '\n' !in s
  }
}
