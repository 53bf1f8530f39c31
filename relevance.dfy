/** The job-description relevance scorer shared by scripts/cv_generator.py and
    scripts/tailored_cv_generator.py: the fixed keyword categories, whole-word matching
    (`re.search` / `re.findall` of `\b` + escaped keyword + `\b` on lower-cased text),
    keyword extraction with its per-category counter, the relevance score, and the
    substring test that decides which skills are bolded. */
module Relevance {
  import opened Wrappers
  import opened Text
  import opened Seqs
  import opened LatexFormat

  /** Keywords are non-empty literals (they pass through `re.escape`). */
  type Keyword = k: string | |k| > 0 witness "k"

  /** A category name with its keywords; also the shape of `found_keywords` and `job_keywords`. */
  type Category = (string, seq<Keyword>)

  /** `SKILL_KEYWORDS`, in dict order (identical in both generators). */
  const SkillKeywords: seq<Category> := [
    ("programming", ProgrammingKeywords),
    ("machine_learning", MachineLearningKeywords),
    ("control", ControlKeywords),
    ("process_engineering", ProcessEngineeringKeywords),
    ("data_science", DataScienceKeywords),
    ("research", ResearchKeywords),
    ("industry", IndustryKeywords),
    ("soft_skills", SoftSkillsKeywords)
  ]

  const ProgrammingKeywords: seq<Keyword> := ["python", "matlab", "simulink", "c++", "c#", "java", "javascript",
      "r", "julia", "sql", "pytorch", "tensorflow", "keras", "scikit-learn",
      "pandas", "numpy", "scipy", "pyomo", "gurobi", "cplex"]

  const MachineLearningKeywords: seq<Keyword> := ["machine learning", "ml", "deep learning", "neural network", "lstm",
      "gaussian process", "bayesian", "optimization", "reinforcement learning",
      "supervised learning", "unsupervised learning", "regression", "classification",
      "data-driven", "data driven", "ai", "artificial intelligence"]

  const ControlKeywords: seq<Keyword> := ["control", "mpc", "model predictive control", "pid", "feedback",
      "state estimation", "kalman filter", "observer", "controller",
      "automation", "automatics", "dynamical systems", "system identification"]

  const ProcessEngineeringKeywords: seq<Keyword> := ["biogas", "anaerobic digestion", "bioenergy", "renewable energy",
      "process optimization", "process modelling", "process modeling",
      "cfd", "adm1", "am2", "chemostat", "bioreactor", "digester",
      "htc", "hydrothermal", "waste treatment", "bioprocess"]

  const DataScienceKeywords: seq<Keyword> := ["data science", "data analysis", "statistics", "time series",
      "forecasting", "prediction", "modelling", "modeling", "simulation",
      "dmd", "dynamic mode decomposition", "koopman", "sindy"]

  const ResearchKeywords: seq<Keyword> := ["research", "phd", "publication", "journal", "conference",
      "academic", "thesis", "dissertation", "paper", "manuscript"]

  const IndustryKeywords: seq<Keyword> := ["industry", "industrial", "commercial", "scale-up", "pilot",
      "plant", "operations", "real-time", "deployment", "production"]

  const SoftSkillsKeywords: seq<Keyword> := ["communication", "teamwork", "collaboration", "leadership",
      "presentation", "teaching", "mentoring", "project management"]

  // ---------------------------------------------------------------- whole-word matching

  /** Position `p` holds a word character (`\w`); positions outside the text do not. */
  predicate WordAt(t: string, p: int) {
    0 <= p < |t| && IsWordChar(t[p])
  }

  /** `\b` at position `p`: exactly one of the characters around it is a word character. */
  predicate Boundary(t: string, p: int) {
    WordAt(t, p - 1) != WordAt(t, p)
  }

  /** `\bk\b` matches at position `i`. */
  predicate MatchAt(t: string, k: string, i: int) {
    0 <= i && i + |k| <= |t| && t[i..i + |k|] == k && Boundary(t, i) && Boundary(t, i + |k|)
  }

  /** `re.search` from position `i`. */
  function SearchFrom(t: string, k: Keyword, i: nat): (b: bool)
    ensures b <==> exists j :: i <= j && MatchAt(t, k, j)
    decreases |t| - i
  {
    if i + |k| > |t| then false else MatchAt(t, k, i) || SearchFrom(t, k, i + 1)
  }

  /** `re.search(r'\b' + re.escape(k) + r'\b', t)` succeeds. */
  function Found(t: string, k: Keyword): bool {
    SearchFrom(t, k, 0)
  }

  /** `len(re.findall(...))` from position `i`: leftmost matches, scanning resumes after each match. */
  function CountFrom(t: string, k: Keyword, i: nat): nat
    decreases |t| - i
  {
    if i + |k| > |t| then 0
    else if MatchAt(t, k, i) then 1 + CountFrom(t, k, i + |k|)
    else CountFrom(t, k, i + 1)
  }

  /** A keyword is counted at least once exactly when the search finds it. */
  lemma {:induction false} CountPositiveIffFound(t: string, k: Keyword, i: nat)
    ensures CountFrom(t, k, i) > 0 <==> SearchFrom(t, k, i)
    decreases |t| - i
  {
    if i + |k| <= |t| && !MatchAt(t, k, i) {
      CountPositiveIffFound(t, k, i + 1);
    }
  }

  /** A keyword ending in a non-word character (`c++`, `c#`) only matches when a word
      character follows it, because `\b` after it needs one. */
  lemma {:induction false} NonWordEndNeedsWordAfter(t: string, k: Keyword, i: int)
    requires MatchAt(t, k, i) && !IsWordChar(k[|k| - 1])
    ensures i + |k| < |t| && IsWordChar(t[i + |k|])
  {
    assert t[i + |k| - 1] == t[i..i + |k|][|k| - 1];
  }

  lemma {:induction false} CPlusPlusQuirk(t: string, i: int)
    ensures MatchAt(t, "c++", i) ==> i + 3 < |t| && IsWordChar(t[i + 3])
    ensures MatchAt(t, "c#", i) ==> i + 2 < |t| && IsWordChar(t[i + 2])
  {
    if MatchAt(t, "c++", i) {
      NonWordEndNeedsWordAfter(t, "c++", i);
    }
    if MatchAt(t, "c#", i) {
      NonWordEndNeedsWordAfter(t, "c#", i);
    }
  }

  // ---------------------------------------------------------------- keyword extraction

  /** The keywords of one category found in the lower-cased text, in category order. */
  function FoundIn(lt: string, kws: seq<Keyword>): seq<Keyword>
    decreases |kws|
  {
    if kws == [] then []
    else
      var k := kws[|kws| - 1];
      FoundIn(lt, kws[..|kws| - 1]) + (if Found(lt, k) then [k] else [])
  }

  /** A keyword is listed iff it occurs as a whole word, and the list keeps the category's order. */
  lemma {:induction false} FoundInSpec(lt: string, kws: seq<Keyword>)
    ensures forall k :: k in FoundIn(lt, kws) <==> k in kws && Found(lt, k)
    ensures IsSubseq(FoundIn(lt, kws), kws)
    decreases |kws|
  {
    if kws != [] {
      var init, k := kws[..|kws| - 1], kws[|kws| - 1];
      FoundInSpec(lt, init);
      assert kws == init + [k];
      SubseqSnoc(FoundIn(lt, init), init, k);
      if Found(lt, k) {
        assert FoundIn(lt, kws) == FoundIn(lt, init) + [k];
      } else {
        assert FoundIn(lt, kws) == FoundIn(lt, init) + [];
        assert FoundIn(lt, init) + [] == FoundIn(lt, init);
      }
    } else {
      SubseqRefl(kws);
    }
  }

  /** `extract_keywords`' result: every category of the table, in order, with its found keywords. */
  function FoundKeywords(table: seq<Category>, text: string): (found: seq<Category>)
    ensures |found| == |table|
    ensures forall i :: 0 <= i < |table| ==> found[i].0 == table[i].0
    decreases |table|
  {
    if table == [] then []
    else
      var n := |table| - 1;
      FoundKeywords(table[..n], text) + [(table[n].0, FoundIn(Lower(text), table[n].1))]
  }

  lemma {:induction false} FoundKeywordsAt(table: seq<Category>, text: string, i: nat)
    requires i < |table|
    ensures FoundKeywords(table, text)[i].1 == FoundIn(Lower(text), table[i].1)
    decreases |table|
  {
    var n := |table| - 1;
    if i < n {
      FoundKeywordsAt(table[..n], text, i);
    }
  }

  /** A Python `Counter` as its items in insertion order; every stored count is positive. */
  type Counter = seq<(string, nat)>

  function CountOf(c: Counter, key: string): nat {
    if c == [] then 0 else if c[0].0 == key then c[0].1 else CountOf(c[1..], key)
  }

  /** `counter[key] += 1`: an existing key keeps its place, a new one is appended. */
  function Increment(c: Counter, key: string): (r: Counter)
    ensures r != []
  {
    if c == [] then [(key, 1)]
    else if c[0].0 == key then [(key, c[0].1 + 1)] + c[1..]
    else [c[0]] + Increment(c[1..], key)
  }

  lemma {:induction false} IncrementCount(c: Counter, key: string, x: string)
    ensures CountOf(Increment(c, key), x) == CountOf(c, x) + (if x == key then 1 else 0)
  {
    if c != [] && c[0].0 != key {
      IncrementCount(c[1..], key, x);
    }
  }

  /** `n` increments of one key. */
  function Bump(c: Counter, key: string, n: nat): Counter {
    if n == 0 then c else Increment(Bump(c, key, n - 1), key)
  }

  lemma {:induction false} BumpCount(c: Counter, key: string, n: nat, x: string)
    ensures CountOf(Bump(c, key, n), x) == CountOf(c, x) + (if x == key then n else 0)
  {
    if n > 0 {
      BumpCount(c, key, n - 1, x);
      IncrementCount(Bump(c, key, n - 1), key, x);
    }
  }

  /** The counter after an extraction: one increment of its category per found keyword. */
  function AddFound(c: Counter, found: seq<Category>): Counter
    decreases |found|
  {
    if found == [] then c
    else
      var n := |found| - 1;
      Bump(AddFound(c, found[..n]), found[n].0, |found[n].1|)
  }

  /** Number of found keywords filed under `name`. */
  function Hits(found: seq<Category>, name: string): nat
    decreases |found|
  {
    if found == [] then 0
    else
      var n := |found| - 1;
      Hits(found[..n], name) + (if found[n].0 == name then |found[n].1| else 0)
  }

  lemma {:induction false} AddFoundCount(c: Counter, found: seq<Category>, x: string)
    ensures CountOf(AddFound(c, found), x) == CountOf(c, x) + Hits(found, x)
    decreases |found|
  {
    if found != [] {
      var n := |found| - 1;
      AddFoundCount(c, found[..n], x);
      BumpCount(AddFound(c, found[..n]), found[n].0, |found[n].1|, x);
    }
  }

  predicate DistinctNames(table: seq<Category>) {
    forall i, j :: 0 <= i < j < |table| ==> table[i].0 != table[j].0
  }

  lemma {:induction false} HitsDistinct(found: seq<Category>, i: nat)
    requires i < |found| && DistinctNames(found)
    ensures Hits(found, found[i].0) == |found[i].1|
    decreases |found|
  {
    var n := |found| - 1;
    if i < n {
      HitsDistinct(found[..n], i);
    } else {
      HitsAbsent(found[..n], found[i].0);
    }
  }

  lemma {:induction false} HitsAbsent(found: seq<Category>, name: string)
    requires forall j :: 0 <= j < |found| ==> found[j].0 != name
    ensures Hits(found, name) == 0
    decreases |found|
  {
    if found != [] {
      HitsAbsent(found[..|found| - 1], name);
    }
  }

  lemma SkillKeywordsDistinct()
    ensures DistinctNames(SkillKeywords)
  {
  }

  /** Each extraction adds to a category's count exactly the number of its keywords found
      (presence, not occurrences); other counts are untouched, so the counter accumulates. */
  lemma {:induction false} ExtractionCount(table: seq<Category>, text: string, c: Counter, i: nat)
    requires DistinctNames(table) && i < |table|
    ensures CountOf(AddFound(c, FoundKeywords(table, text)), table[i].0)
         == CountOf(c, table[i].0) + |FoundIn(Lower(text), table[i].1)|
  {
    var found := FoundKeywords(table, text);
    AddFoundCount(c, found, table[i].0);
    HitsDistinct(found, i);
    FoundKeywordsAt(table, text, i);
  }

  /** Starting from an empty counter, the counter stays empty exactly when nothing was found. */
  lemma {:induction false} AddFoundEmpty(found: seq<Category>)
    ensures AddFound([], found) == [] <==> forall i :: 0 <= i < |found| ==> found[i].1 == []
    decreases |found|
  {
    if found != [] {
      var n := |found| - 1;
      AddFoundEmpty(found[..n]);
      if found[n].1 != [] {
        assert Bump(AddFound([], found[..n]), found[n].0, |found[n].1|) != [];
      }
    }
  }

  lemma {:induction false} FoundKeywordsSnoc(table: seq<Category>, text: string, i: nat)
    requires i < |table|
    ensures FoundKeywords(table[..i + 1], text)
         == FoundKeywords(table[..i], text) + [(table[i].0, FoundIn(Lower(text), table[i].1))]
  {
    assert table[..i + 1][..i] == table[..i];
  }

  lemma {:induction false} AddFoundSnoc(c: Counter, found: seq<Category>, x: Category)
    ensures AddFound(c, found + [x]) == Bump(AddFound(c, found), x.0, |x.1|)
  {
    assert (found + [x])[..|found|] == found;
  }

  /** The inner loop of `extract_keywords`: the keywords of one category tried in order, the
      counter bumped once for each one found. */
  method ScanCategory(lt: string, category: string, keywords: seq<Keyword>, before: Counter)
    returns (hits: seq<Keyword>, after: Counter)
    ensures hits == FoundIn(lt, keywords)
    ensures after == Bump(before, category, |hits|)
  {
    hits := [];
    after := before;
    var j := 0;
    while j < |keywords|
      invariant 0 <= j <= |keywords|
      invariant hits == FoundIn(lt, keywords[..j])
      invariant after == Bump(before, category, |hits|)
    {
      assert keywords[..j + 1][..j] == keywords[..j];
      if SearchFrom(lt, keywords[j], 0) {
        hits := hits + [keywords[j]];
        after := Increment(after, category);
      }
      j := j + 1;
    }
    assert keywords[..j] == keywords;
  }

  /** The nested loops of `extract_keywords`, on the counter passed in and returned. */
  method ScanKeywords(table: seq<Category>, text: string, scores: Counter)
    returns (found: seq<Category>, scoresOut: Counter)
    ensures found == FoundKeywords(table, text)
    ensures scoresOut == AddFound(scores, found)
  {
    var lt := Lower(text);
    found := [];
    scoresOut := scores;
    var i := 0;
    while i < |table|
      invariant 0 <= i <= |table|
      invariant found == FoundKeywords(table[..i], text)
      invariant scoresOut == AddFound(scores, found)
    {
      var hits, after := ScanCategory(lt, table[i].0, table[i].1, scoresOut);
      FoundKeywordsSnoc(table, text, i);
      AddFoundSnoc(scores, found, (table[i].0, hits));
      found := found + [(table[i].0, hits)];
      scoresOut := after;
      i := i + 1;
    }
    assert table[..i] == table;
  }

  // ---------------------------------------------------------------- relevance score

  /** A category's weight: 1 when no weights are given, else the weight or 1 if absent. */
  function Weight(weights: Option<map<string, nat>>, category: string): nat {
    match weights
    case None => 1
    case Some(m) => if category in m then m[category] else 1
  }

  function KeywordMatches(lt: string, kws: seq<Keyword>, w: nat): nat
    decreases |kws|
  {
    if kws == [] then 0
    else
      var n := |kws| - 1;
      KeywordMatches(lt, kws[..n], w) + CountFrom(lt, kws[n], 0) * w
  }

  /** `calculate_relevance`: the weighted sum, over every listed keyword, of its whole-word
      match count in the lower-cased text. */
  function Score(jobKeywords: seq<Category>, text: string, weights: Option<map<string, nat>>): nat
    decreases |jobKeywords|
  {
    if jobKeywords == [] then 0
    else
      var n := |jobKeywords| - 1;
      Score(jobKeywords[..n], text, weights)
        + KeywordMatches(Lower(text), jobKeywords[n].1, Weight(weights, jobKeywords[n].0))
  }

  /** The nested loops of `calculate_relevance`. */
  method CalculateRelevance(jobKeywords: seq<Category>, text: string, weights: Option<map<string, nat>>)
    returns (score: nat)
    ensures score == Score(jobKeywords, text, weights)
  {
    var lt := Lower(text);
    score := 0;
    var i := 0;
    while i < |jobKeywords|
      invariant 0 <= i <= |jobKeywords|
      invariant score == Score(jobKeywords[..i], text, weights)
    {
      var keywords := jobKeywords[i].1;
      var w := Weight(weights, jobKeywords[i].0);
      ghost var before := score;
      var j := 0;
      while j < |keywords|
        invariant 0 <= j <= |keywords|
        invariant score == before + KeywordMatches(lt, keywords[..j], w)
      {
        assert keywords[..j + 1][..j] == keywords[..j];
        score := score + CountFrom(lt, keywords[j], 0) * w;
        j := j + 1;
      }
      assert keywords[..j] == keywords;
      assert jobKeywords[..i + 1][..i] == jobKeywords[..i];
      i := i + 1;
    }
    assert jobKeywords[..i] == jobKeywords;
  }

  /** Some keyword of the list occurs in the lower-cased text. */
  ghost predicate AnyFound(lt: string, jobKeywords: seq<Category>) {
    exists i, j :: 0 <= i < |jobKeywords| && 0 <= j < |jobKeywords[i].1| && Found(lt, jobKeywords[i].1[j])
  }

  lemma {:induction false} KeywordMatchesPositive(lt: string, kws: seq<Keyword>)
    ensures KeywordMatches(lt, kws, 1) > 0 <==> exists j :: 0 <= j < |kws| && Found(lt, kws[j])
    decreases |kws|
  {
    if kws != [] {
      var n := |kws| - 1;
      KeywordMatchesPositive(lt, kws[..n]);
      CountPositiveIffFound(lt, kws[n], 0);
      if exists j :: 0 <= j < |kws| && Found(lt, kws[j]) {
        var j :| 0 <= j < |kws| && Found(lt, kws[j]);
        if j < n {
          assert kws[..n][j] == kws[j];
        }
      }
    }
  }

  lemma {:induction false} AnyFoundSnoc(lt: string, jobKeywords: seq<Category>)
    requires jobKeywords != []
    ensures var n := |jobKeywords| - 1;
      AnyFound(lt, jobKeywords) <==>
        AnyFound(lt, jobKeywords[..n]) || exists j :: 0 <= j < |jobKeywords[n].1| && Found(lt, jobKeywords[n].1[j])
  {
    var n := |jobKeywords| - 1;
    if AnyFound(lt, jobKeywords) {
      var i, j :| 0 <= i < |jobKeywords| && 0 <= j < |jobKeywords[i].1| && Found(lt, jobKeywords[i].1[j]);
      if i < n {
        assert jobKeywords[..n][i] == jobKeywords[i];
      }
    }
    if AnyFound(lt, jobKeywords[..n]) {
      var i, j :| 0 <= i < n && 0 <= j < |jobKeywords[..n][i].1| && Found(lt, jobKeywords[..n][i].1[j]);
      assert jobKeywords[..n][i] == jobKeywords[i];
    }
  }

  /** Without weights every category weighs 1: the score is positive exactly when some listed
      keyword occurs as a whole word, and an empty keyword map scores 0. */
  lemma {:induction false} UnweightedScorePositive(jobKeywords: seq<Category>, text: string)
    ensures Score(jobKeywords, text, None) > 0 <==> AnyFound(Lower(text), jobKeywords)
    ensures jobKeywords == [] ==> Score(jobKeywords, text, None) == 0
    decreases |jobKeywords|
  {
    if jobKeywords != [] {
      var n := |jobKeywords| - 1;
      UnweightedScorePositive(jobKeywords[..n], text);
      KeywordMatchesPositive(Lower(text), jobKeywords[n].1);
      AnyFoundSnoc(Lower(text), jobKeywords);
    }
  }

  lemma {:induction false} KeywordMatchesMonotone(lt: string, kws: seq<Keyword>, w: nat)
    requires w >= 1
    ensures KeywordMatches(lt, kws, w) >= KeywordMatches(lt, kws, 1)
    decreases |kws|
  {
    if kws != [] {
      KeywordMatchesMonotone(lt, kws[..|kws| - 1], w);
    }
  }

  /** Weights of at least 1 never lower a score below the unweighted one. */
  lemma {:induction false} WeightedScoreAtLeastUnweighted(jobKeywords: seq<Category>, text: string, m: map<string, nat>)
    requires forall c :: c in m ==> m[c] >= 1
    ensures Score(jobKeywords, text, Some(m)) >= Score(jobKeywords, text, None)
    decreases |jobKeywords|
  {
    if jobKeywords != [] {
      var n := |jobKeywords| - 1;
      WeightedScoreAtLeastUnweighted(jobKeywords[..n], text, m);
      KeywordMatchesMonotone(Lower(text), jobKeywords[n].1, Weight(Some(m), jobKeywords[n].0));
    }
  }

  // ---------------------------------------------------------------- skill highlighting

  /** Some keyword of the map is a substring of the lower-cased skill (`kw in skill_lower`). */
  ghost predicate SkillMatches(skill: string, jobKeywords: seq<Category>) {
    exists i, j :: 0 <= i < |jobKeywords| && 0 <= j < |jobKeywords[i].1| && Contains(Lower(skill), jobKeywords[i].1[j])
  }

  /** The nested loops with `break` that set `is_relevant`. */
  method IsRelevantSkill(skill: string, jobKeywords: seq<Category>) returns (relevant: bool)
    ensures relevant <==> SkillMatches(skill, jobKeywords)
  {
    var skillLower := Lower(skill);
    relevant := false;
    var i := 0;
    while i < |jobKeywords| && !relevant
      invariant 0 <= i <= |jobKeywords|
      invariant !relevant ==> forall a, b :: 0 <= a < i && 0 <= b < |jobKeywords[a].1| ==> !Contains(skillLower, jobKeywords[a].1[b])
      invariant relevant ==> SkillMatches(skill, jobKeywords)
    {
      var keywords := jobKeywords[i].1;
      var j := 0;
      while j < |keywords|
        invariant 0 <= j <= |keywords|
        invariant !relevant
        invariant forall b :: 0 <= b < j ==> !Contains(skillLower, keywords[b])
      {
        if Contains(skillLower, keywords[j]) {
          relevant := true;
          break;
        }
        j := j + 1;
      }
      i := i + 1;
    }
  }

  /** One entry of `format_skills`: escaped, and bold when highlighting is on and the skill matches. */
  ghost function FormatSkill(rules: seq<Rule>, skill: string, jobKeywords: seq<Category>, highlight: bool): string {
    if highlight && SkillMatches(skill, jobKeywords) then "\\textbf{" + ApplyRules(rules, skill) + "}"
    else ApplyRules(rules, skill)
  }

  ghost function FormatSkillList(rules: seq<Rule>, skills: seq<string>, jobKeywords: seq<Category>, highlight: bool): seq<string>
    decreases |skills|
  {
    if skills == [] then []
    else
      var n := |skills| - 1;
      FormatSkillList(rules, skills[..n], jobKeywords, highlight) + [FormatSkill(rules, skills[n], jobKeywords, highlight)]
  }

  /** `format_skills`: the loop appending to `formatted`, then `", ".join(formatted)`. */
  method FormatSkills(rules: seq<Rule>, skills: seq<string>, jobKeywords: seq<Category>, highlight: bool)
    returns (r: string)
    ensures r == Join(FormatSkillList(rules, skills, jobKeywords, highlight), ", ")
  {
    var formatted: seq<string> := [];
    var i := 0;
    while i < |skills|
      invariant 0 <= i <= |skills|
      invariant formatted == FormatSkillList(rules, skills[..i], jobKeywords, highlight)
    {
      assert skills[..i + 1][..i] == skills[..i];
      var isRelevant := false;
      if highlight {
        isRelevant := IsRelevantSkill(skills[i], jobKeywords);
      }
      var escaped := EscapeLatex(rules, skills[i]);
      if isRelevant {
        formatted := formatted + ["\\textbf{" + escaped + "}"];
      } else {
        formatted := formatted + [escaped];
      }
      i := i + 1;
    }
    assert skills[..i] == skills;
    r := Join(formatted, ", ");
  }

  /** A skill is bolded exactly when highlighting is on and some keyword is a substring of the
      lower-cased skill; otherwise it is only escaped. */
  lemma {:induction false} BoldIff(rules: seq<Rule>, skill: string, jobKeywords: seq<Category>, highlight: bool)
    ensures FormatSkill(rules, skill, jobKeywords, highlight) == "\\textbf{" + ApplyRules(rules, skill) + "}"
        <==> highlight && SkillMatches(skill, jobKeywords)
    ensures !(highlight && SkillMatches(skill, jobKeywords)) ==> FormatSkill(rules, skill, jobKeywords, highlight) == ApplyRules(rules, skill)
  {
    var e := ApplyRules(rules, skill);
    assert |"\\textbf{" + e + "}"| > |e|;
  }
}
