/** LaTeX escaping by sequential whole-string replacement, and date ranges.

    Every generator escapes with a loop `for char, replacement in table: result = result.replace(char, replacement)`.
    Two tables exist: the nine-rule list of scripts/cv_generator.py and the ten-rule dict of the other
    generators, whose last rule rewrites the backslash. Sequential replacement of single characters is
    always a per-character substitution; it equals the table's own one-pass map exactly when no later
    rule's character occurs in an earlier rule's replacement. */
module LatexFormat {
  import opened Text

  /** One `(char, replacement)` pair of an escape table. */
  type Rule = (char, string)

  /** The list in scripts/cv_generator.py: braces come before `^` and `~`, and there is no backslash rule. */
  const NineRules: seq<Rule> := [
    ('&', "\\&"), ('%', "\\%"), ('$', "\\$"), ('#', "\\#"), ('_', "\\_"),
    ('{', "\\{"), ('}', "\\}"), ('^', "\\^{}"), ('~', "\\~{}")
  ]

  /** The dict of the tailored, configurable and plain generators, in insertion order. */
  const TenRules: seq<Rule> := [
    ('&', "\\&"), ('%', "\\%"), ('$', "\\$"), ('#', "\\#"), ('^', "\\textasciicircum{}"),
    ('_', "\\_"), ('{', "\\{"), ('}', "\\}"), ('~', "\\textasciitilde{}"), ('\\', "\\textbackslash{}")
  ]

  /** Apply the rules one after the other, each to the whole string. */
  function ApplyRules(rules: seq<Rule>, s: string): string
    decreases |rules|
  {
    if rules == [] then s else ApplyRules(rules[1..], ReplaceChar(s, rules[0].0, rules[0].1))
  }

  /** `escape_latex`: the replacement loop over the table. */
  method EscapeLatex(rules: seq<Rule>, text: string) returns (result: string)
    ensures result == ApplyRules(rules, text)
  {
    result := text;
    var i := 0;
    while i < |rules|
      invariant 0 <= i <= |rules|
      invariant ApplyRules(rules[i..], result) == ApplyRules(rules, text)
    {
      assert rules[i..][1..] == rules[i + 1..];
      result := ReplaceChar(result, rules[i].0, rules[i].1);
      i := i + 1;
    }
  }

  /** The table read as a one-pass map: the first rule for `c`, or `c` itself. */
  function TableImage(rules: seq<Rule>, c: char): string
    decreases |rules|
  {
    if rules == [] then [c]
    else if rules[0].0 == c then rules[0].1
    else TableImage(rules[1..], c)
  }

  /** The one-pass map applied to every character of `s`. */
  function TableMap(rules: seq<Rule>, s: string): string {
    if s == [] then [] else TableImage(rules, s[0]) + TableMap(rules, s[1..])
  }

  /** No rule's character occurs in the replacement of an earlier rule. */
  predicate Ordered(rules: seq<Rule>) {
    forall i, j :: 0 <= i < j < |rules| ==> rules[j].0 !in rules[i].1
  }

  /** None of the table's characters occurs in `s`. */
  predicate Plain(rules: seq<Rule>, s: string) {
    forall k :: 0 <= k < |rules| ==> rules[k].0 !in s
  }

  lemma {:induction false} ApplyRulesAbsent(rules: seq<Rule>, s: string)
    requires Plain(rules, s)
    ensures ApplyRules(rules, s) == s
    decreases |rules|
  {
    if rules != [] {
      ReplaceCharAbsent(s, rules[0].0, rules[0].1);
      ApplyRulesAbsent(rules[1..], s);
    }
  }

  /** Sequential replacement distributes over concatenation. */
  lemma {:induction false} ApplyRulesConcat(rules: seq<Rule>, a: string, b: string)
    ensures ApplyRules(rules, a + b) == ApplyRules(rules, a) + ApplyRules(rules, b)
    decreases |rules|
  {
    if rules != [] {
      ReplaceCharConcat(a, b, rules[0].0, rules[0].1);
      ApplyRulesConcat(rules[1..], ReplaceChar(a, rules[0].0, rules[0].1), ReplaceChar(b, rules[0].0, rules[0].1));
    }
  }

  /** Sequential replacement is a per-character substitution: each character is replaced by
      the image of the one-character string. */
  lemma {:induction false} ApplyRulesPerChar(rules: seq<Rule>, s: string)
    requires s != []
    ensures ApplyRules(rules, s) == ApplyRules(rules, [s[0]]) + ApplyRules(rules, s[1..])
  {
    assert s == [s[0]] + s[1..];
    ApplyRulesConcat(rules, [s[0]], s[1..]);
  }

  lemma {:induction false} ApplyRulesSnoc(rules: seq<Rule>, r: Rule, s: string)
    ensures ApplyRules(rules + [r], s) == ReplaceChar(ApplyRules(rules, s), r.0, r.1)
    decreases |rules|
  {
    if rules == [] {
      assert ([] + [r])[1..] == [];
    } else {
      assert (rules + [r])[1..] == rules[1..] + [r];
      ApplyRulesSnoc(rules[1..], r, ReplaceChar(s, rules[0].0, rules[0].1));
    }
  }

  /** A character first matched by rule `k` becomes what the later rules make of that rule's replacement. */
  lemma {:induction false} CharImageAt(rules: seq<Rule>, c: char, k: nat)
    requires k < |rules| && rules[k].0 == c
    requires forall i :: 0 <= i < k ==> rules[i].0 != c
    ensures ApplyRules(rules, [c]) == ApplyRules(rules[k + 1..], rules[k].1)
    decreases k
  {
    if k == 0 {
      assert ReplaceChar([c], c, rules[0].1) == rules[0].1 + ReplaceChar([], c, rules[0].1);
      assert ReplaceChar([c], c, rules[0].1) == rules[0].1;
    } else {
      assert ReplaceChar([c], rules[0].0, rules[0].1) == [c] + ReplaceChar([], rules[0].0, rules[0].1);
      assert rules[1..][k..] == rules[k + 1..];
      CharImageAt(rules[1..], c, k - 1);
    }
  }

  /** For an ordered table, the sequential image of one character is its table image. */
  lemma {:induction false} OrderedCharImage(rules: seq<Rule>, c: char)
    requires Ordered(rules)
    ensures ApplyRules(rules, [c]) == TableImage(rules, c)
    decreases |rules|
  {
    if rules != [] {
      var r := rules[0];
      if r.0 == c {
        assert ReplaceChar([c], c, r.1) == r.1 + ReplaceChar([], c, r.1);
        assert ReplaceChar([c], c, r.1) == r.1;
        assert Plain(rules[1..], r.1) by {
          forall k | 0 <= k < |rules[1..]| ensures rules[1..][k].0 !in r.1 {
            assert rules[1..][k] == rules[k + 1];
          }
        }
        ApplyRulesAbsent(rules[1..], r.1);
      } else {
        assert ReplaceChar([c], r.0, r.1) == [c] + ReplaceChar([], r.0, r.1);
        assert Ordered(rules[1..]) by {
          forall i, j | 0 <= i < j < |rules[1..]| ensures rules[1..][j].0 !in rules[1..][i].1 {
            assert rules[1..][j] == rules[j + 1] && rules[1..][i] == rules[i + 1];
          }
        }
        OrderedCharImage(rules[1..], c);
      }
    }
  }

  /** For an ordered table, sequential replacement equals the one-pass table map. */
  lemma {:induction false} OrderedIsTableMap(rules: seq<Rule>, s: string)
    requires Ordered(rules)
    ensures ApplyRules(rules, s) == TableMap(rules, s)
    decreases |s|
  {
    if s == [] {
      ApplyRulesAbsent(rules, s);
    } else {
      ApplyRulesPerChar(rules, s);
      OrderedCharImage(rules, s[0]);
      OrderedIsTableMap(rules, s[1..]);
    }
  }

  lemma NineOrdered()
    ensures Ordered(NineRules)
  {
  }

  /** The nine-rule list is ordered, so its loop is the one-pass map of the table. */
  lemma {:induction false} NineIsTableMap(s: string)
    ensures ApplyRules(NineRules, s) == TableMap(NineRules, s)
  {
    NineOrdered();
    OrderedIsTableMap(NineRules, s);
  }

  /** Under the nine-rule list `^` becomes exactly `\^{}`, `{` becomes `\{`, and a backslash passes through. */
  lemma NineSamples()
    ensures ApplyRules(NineRules, "^") == "\\^{}"
    ensures ApplyRules(NineRules, "{") == "\\{"
    ensures ApplyRules(NineRules, "\\") == "\\"
  {
    NineCaret();
    NineBrace();
    ApplyRulesAbsent(NineRules, "\\");
  }

  lemma NineCaret()
    ensures ApplyRules(NineRules, "^") == "\\^{}"
  {
    CharImageAt(NineRules, '^', 7);
    ApplyRulesAbsent(NineRules[8..], "\\^{}");
  }

  lemma NineBrace()
    ensures ApplyRules(NineRules, "{") == "\\{"
  {
    CharImageAt(NineRules, '{', 5);
    ApplyRulesAbsent(NineRules[6..], "\\{");
  }

  /** The rules after a simple character's own rule touch neither the backslash nor that character. */
  lemma {:induction false} TenLaterPlain(k: nat)
    requires k < 4 || 5 <= k <= 7
    ensures Plain(TenRules[k + 1..9], "\\" + [TenRules[k].0])
  {
    var later := TenRules[k + 1..9];
    forall j | 0 <= j < |later| ensures later[j].0 !in "\\" + [TenRules[k].0] {
      assert later[j] == TenRules[k + 1 + j];
    }
  }

  /** The ten-rule table is not ordered: the first seven characters' escapes gain a
      `\textbackslash{}` from the last rule. */
  lemma {:induction false} TenSimpleCharImage(k: nat)
    requires k < 4 || 5 <= k <= 7
    ensures ApplyRules(TenRules, [TenRules[k].0]) == "\\textbackslash{}" + [TenRules[k].0]
  {
    TenSimpleFacts(k);
    TenLaterPlain(k);
    BackslashRuleLast(TenRules, k);
  }

  lemma {:induction false} TenSimpleFacts(k: nat)
    requires k < 4 || 5 <= k <= 7
    ensures TenRules[k].1 == "\\" + [TenRules[k].0] && TenRules[k].0 != '\\'
    ensures forall i :: 0 <= i < k ==> TenRules[i].0 != TenRules[k].0
    ensures TenRules[9] == ('\\', "\\textbackslash{}")
  {
  }

  lemma {:induction false} RulesSuffixSnoc(rules: seq<Rule>, a: nat)
    requires a < |rules|
    ensures rules[a..] == rules[a..|rules| - 1] + [rules[|rules| - 1]]
  {
  }

  /** When a character's first rule prefixes it with a backslash, the rules in between leave that
      alone, and the last rule escapes backslashes, the character ends up after `\textbackslash{}`. */
  lemma {:induction false} BackslashRuleLast(rules: seq<Rule>, k: nat)
    requires |rules| >= 2 && k < |rules| - 1
    requires rules[k].1 == "\\" + [rules[k].0] && rules[k].0 != '\\'
    requires forall i :: 0 <= i < k ==> rules[i].0 != rules[k].0
    requires Plain(rules[k + 1..|rules| - 1], "\\" + [rules[k].0])
    requires rules[|rules| - 1].0 == '\\'
    ensures ApplyRules(rules, [rules[k].0]) == rules[|rules| - 1].1 + [rules[k].0]
  {
    var c := rules[k].0;
    var n := |rules|;
    var later := rules[k + 1..n - 1];
    var last := rules[n - 1];
    CharImageAt(rules, c, k);
    RulesSuffixSnoc(rules, k + 1);
    ApplyRulesSnoc(later, last, "\\" + [c]);
    ApplyRulesAbsent(later, "\\" + [c]);
    ReplaceBackslashPrefix(c, last.1);
  }

  lemma {:induction false} ReplaceBackslashPrefix(c: char, t: string)
    requires c != '\\'
    ensures ReplaceChar("\\" + [c], '\\', t) == t + [c]
  {
    var s := "\\" + [c];
    assert s[1..] == [c];
    assert ReplaceChar(s, '\\', t) == t + ReplaceChar([c], '\\', t);
    assert ReplaceChar([c], '\\', t) == [c] + ReplaceChar([], '\\', t);
  }

  /** `"&"` escapes to `\textbackslash{}&` under the ten-rule table, not to the table's `\&`. */
  lemma TenAmpersand()
    ensures ApplyRules(TenRules, "&") == "\\textbackslash{}&"
    ensures ApplyRules(TenRules, "&") != TableMap(TenRules, "&")
    ensures !Ordered(TenRules)
  {
    TenSimpleCharImage(0);
    assert TableMap(TenRules, "&") == TableImage(TenRules, '&') + TableMap(TenRules, []);
    assert TenRules[9].0 in TenRules[0].1;
  }

  lemma {:induction false} NinePlain(s: string)
    requires forall k :: 0 <= k < |s| ==> s[k] !in "&%$#_{}^~"
    ensures Plain(NineRules, s)
  {
    forall k | 0 <= k < |NineRules| ensures NineRules[k].0 !in s {
      assert NineRules[k].0 in "&%$#_{}^~";
    }
  }

  lemma {:induction false} TenPlain(s: string)
    requires forall k :: 0 <= k < |s| ==> s[k] !in "&%$#^_{}~\\"
    ensures Plain(TenRules, s)
  {
    forall k | 0 <= k < |TenRules| ensures TenRules[k].0 !in s {
      assert TenRules[k].0 in "&%$#^_{}~\\";
    }
  }

  /** A string with none of `& % $ # _ { } ^ ~` is returned unchanged by the nine-rule list. */
  lemma {:induction false} NinePlainUnchanged(s: string)
    requires forall k :: 0 <= k < |s| ==> s[k] !in "&%$#_{}^~"
    ensures ApplyRules(NineRules, s) == s
  {
    NinePlain(s);
    ApplyRulesAbsent(NineRules, s);
  }

  /** A string with none of the ten special characters is returned unchanged. */
  lemma {:induction false} TenPlainUnchanged(s: string)
    requires forall k :: 0 <= k < |s| ==> s[k] !in "&%$#^_{}~\\"
    ensures ApplyRules(TenRules, s) == s
  {
    TenPlain(s);
    ApplyRulesAbsent(TenRules, s);
  }

  /** The rules of a table replace by non-empty strings that contain no newline. */
  predicate WellFormed(rules: seq<Rule>) {
    forall k :: 0 <= k < |rules| ==> rules[k].1 != [] && '\n' !in rules[k].1
  }

  lemma {:induction false} ApplyRulesNonEmpty(rules: seq<Rule>, s: string)
    requires WellFormed(rules) && s != []
    ensures ApplyRules(rules, s) != []
    decreases |rules|
  {
    if rules != [] {
      var r := rules[0];
      var t := ReplaceChar(s, r.0, r.1);
      assert t == (if s[0] == r.0 then r.1 else [s[0]]) + ReplaceChar(s[1..], r.0, r.1);
      assert WellFormed(rules[1..]) by {
        forall k | 0 <= k < |rules[1..]| ensures rules[1..][k].1 != [] && '\n' !in rules[1..][k].1 {
          assert rules[1..][k] == rules[k + 1];
        }
      }
      ApplyRulesNonEmpty(rules[1..], t);
    }
  }

  lemma {:induction false} ReplaceCharNoNewline(s: string, c: char, r: string)
    requires NoNewline(s) && NoNewline(r)
    ensures NoNewline(ReplaceChar(s, c, r))
    decreases |s|
  {
    if s != [] {
      assert s[0] in s && s[1..] == s[1..];
      assert forall x :: x in s[1..] ==> x in s;
      ReplaceCharNoNewline(s[1..], c, r);
    }
  }

  lemma {:induction false} ApplyRulesNoNewline(rules: seq<Rule>, s: string)
    requires WellFormed(rules) && NoNewline(s)
    ensures NoNewline(ApplyRules(rules, s))
    decreases |rules|
  {
    if rules != [] {
      ReplaceCharNoNewline(s, rules[0].0, rules[0].1);
      assert WellFormed(rules[1..]) by {
        forall k | 0 <= k < |rules[1..]| ensures rules[1..][k].1 != [] && '\n' !in rules[1..][k].1 {
          assert rules[1..][k] == rules[k + 1];
        }
      }
      ApplyRulesNoNewline(rules[1..], ReplaceChar(s, rules[0].0, rules[0].1));
    }
  }

  lemma {:induction false} ApplyRulesOnEmpty(rules: seq<Rule>)
    ensures ApplyRules(rules, "") == ""
    decreases |rules|
  {
    if rules != [] {
      ApplyRulesOnEmpty(rules[1..]);
    }
  }

  /** Escaping with either table yields the empty string exactly for the empty string, and
      never introduces a line break. */
  lemma {:induction false} EscapeBasics(s: string)
    ensures (ApplyRules(NineRules, s) == []) <==> (s == [])
    ensures (ApplyRules(TenRules, s) == []) <==> (s == [])
    ensures NoNewline(s) ==> NoNewline(ApplyRules(NineRules, s)) && NoNewline(ApplyRules(TenRules, s))
  {
    assert WellFormed(NineRules) && WellFormed(TenRules);
    if s == [] {
      ApplyRulesOnEmpty(NineRules);
      ApplyRulesOnEmpty(TenRules);
    } else {
      ApplyRulesNonEmpty(NineRules, s);
      ApplyRulesNonEmpty(TenRules, s);
    }
    if NoNewline(s) {
      ApplyRulesNoNewline(NineRules, s);
      ApplyRulesNoNewline(TenRules, s);
    }
  }

  /** `format_date_range`: `start--Present` when the end is "present" in any letter case,
      otherwise `start--end`. */
  function FormatDateRange(start: string, end: string): (r: string)
    ensures r == start + "--" + (if Lower(end) == "present" then "Present" else end)
  {
    if Lower(end) == "present" then start + "--Present" else start + "--" + end
  }

  /** Any letter case of "present" renders the same way. */
  lemma {:induction false} DateRangeCaseInsensitive(start: string, end: string)
    requires |end| == 7 && forall k :: 0 <= k < 7 ==> LowerChar(end[k]) == "present"[k]
    ensures FormatDateRange(start, end) == start + "--Present"
  {
    assert Lower(end) == "present";
  }
}
