/** The LaTeX section renderers shared, with small differences of layout, by the four generators
    (scripts/generate_cv.py and its copy generate_cv.py, scripts/cv_generator.py,
    scripts/tailored_cv_generator.py, Python/cv_generator_configurable.py).

    The generators differ in three ways, which are parameters here:
    - the escape table (`rules`);
    - the separator written where a line break is meant: `\\n` inside a non-raw f-string is a
      backslash followed by the letter n (BackslashN), `\\\n` is a backslash and a real line
      break (BackslashNewline), and scripts/cv_generator.py uses a space or a real line break;
    - whether relevance comments precede the entries and whether the experience entry is an
      itemize list or `\textbullet` lines. */
module Sections {
  import opened Text
  import opened LatexFormat
  import opened Ranking
  import opened Relevance
  import opened Profile

  /** `\\n` in a non-raw f-string: a backslash followed by the letter n, not a line break. */
  const BackslashN: string := "\\n"

  /** `\\\n` in a non-raw string: a backslash followed by a line break. */
  const BackslashNewline: string := "\\\n"

  // ---------------------------------------------------------------- header, about, footer

  /** The preamble before the personal information; fixed in three generators, built from
      `latex_settings` in the configurable one. */
  function Preamble(documentClass: string, style: string, color: string, geometry: string): string {
    "\\documentclass[11pt,a4paper]{" + documentClass + "}\n"
    + "\\moderncvstyle{" + style + "}\n"
    + "\\moderncvcolor{" + color + "}\n"
    + "\\usepackage[" + geometry + "]{geometry}\n"
    + "\\usepackage{multicol}\n\\usepackage{academicons}\n\\usepackage{lmodern}\n\n% Personal Information\n"
  }

  const FixedPreamble: string := Preamble("moderncv", "classic", "blue", "scale=0.8")

  /** Name and title escaped; contact and social links written as they are. */
  function PersonalBlock(rules: seq<Rule>, p: Personal): string {
    "\\name{" + ApplyRules(rules, p.first) + "}{" + ApplyRules(rules, p.last) + "}\n"
    + "\\title{" + ApplyRules(rules, p.title) + "}\n"
    + "\\extrainfo{\n"
    + "    \\faEnvelope\\enspace\\href{mailto:" + p.emailSurrey + "}{" + p.emailSurrey + "} \\quad \n"
    + "    \\faMobile\\enspace" + p.phone + " \\quad\n"
    + "    \\faGlobe\\enspace\\href{" + p.website + "}{Webpage} \\\\\n"
    + "    \\faGraduationCap\\enspace\\href{" + p.googleScholar + "}{Google Scholar} \\quad\n"
    + "    \\faResearchgate\\enspace\\href{" + p.researchgate + "}{ResearchGate} \\quad\n"
    + "    \\faLinkedin\\enspace\\href{" + p.linkedin + "}{LinkedIn} \\quad\n"
    + "    \\faGithub\\enspace\\href{" + p.github + "}{GitHub}\n"
    + "}\n\n"
    + "\\begin{document}\n\n\\makecvtitle\n\n"
  }

  function AboutSection(rules: seq<Rule>, about: string): string {
    "\\section{About Me}\n" + "\\cvitem{}{\\textit{" + ApplyRules(rules, about) + "}}\n\n"
  }

  const Footer: string := "\\end{document}\n"

  /** `cat.replace('_', ' ').title()`. */
  function CategoryTitle(category: string): string {
    Title(ReplaceChar(category, '_', " "))
  }

  function CategoryTitles(top: seq<(string, int)>): seq<string>
    decreases |top|
  {
    if top == [] then [] else [CategoryTitle(top[0].0)] + CategoryTitles(top[1..])
  }

  /** The `% Tailored for:` comment: the titles of the three most common categories, or nothing
      when the counter is empty. */
  function TailoredComment(scores: Counter): string {
    var top := MostCommon(scores, 3);
    if top == [] then "" else "% Tailored for: " + Join(CategoryTitles(top), ", ") + "\n\n"
  }

  lemma {:induction false} CategoryTitlesLength(top: seq<(string, int)>)
    ensures |CategoryTitles(top)| == |top|
    decreases |top|
  {
    if top != [] {
      CategoryTitlesLength(top[1..]);
    }
  }

  /** The comment is omitted exactly when no keyword was counted, and names at most three categories. */
  lemma {:induction false} TailoredCommentSpec(scores: Counter)
    ensures TailoredComment(scores) == "" <==> scores == []
    ensures |CategoryTitles(MostCommon(scores, 3))| <= 3
  {
    MostCommonSpec(scores, 3);
    CategoryTitlesLength(MostCommon(scores, 3));
  }

  // ---------------------------------------------------------------- experience

  /** `% Relevance score: {score:.2f}` for an integral score. */
  function ScoreComment(score: int): string {
    "% Relevance score: " + IntToString(score) + ".00\n"
  }

  /** The `\item` per responsibility of the itemize layout. */
  function ItemList(rules: seq<Rule>, rs: seq<string>): string
    decreases |rs|
  {
    if rs == [] then "" else ItemList(rules, rs[..|rs| - 1]) + "\\item " + ApplyRules(rules, rs[|rs| - 1])
  }

  function Bullets(rules: seq<Rule>, rs: seq<string>): seq<string>
    decreases |rs|
  {
    if rs == [] then [] else Bullets(rules, rs[..|rs| - 1]) + ["\\textbullet\\ " + ApplyRules(rules, rs[|rs| - 1])]
  }

  /** One experience `\cventry`: itemized responsibilities, or `\textbullet` lines joined by `\newline`. */
  function ExperienceEntry(rules: seq<Rule>, bullets: bool, e: Experience): string {
    "\\cventry{" + FormatDateRange(e.startDate, e.endDate) + "}{" + ApplyRules(rules, e.position)
    + "}{" + ApplyRules(rules, e.organization) + "}{" + ApplyRules(rules, e.location) + "}{}{"
    + (if bullets then Join(Bullets(rules, e.responsibilities), " \\newline ") + "}\n"
       else "\\begin{itemize}" + ItemList(rules, e.responsibilities) + "\\end{itemize}}\n")
  }

  /** An entry, preceded by its relevance comment when scores are shown. */
  function ExperienceItem(rules: seq<Rule>, bullets: bool, showScores: bool, x: Scored<Experience>): string {
    (if showScores then ScoreComment(x.1) else "") + ExperienceEntry(rules, bullets, x.0)
  }

  function ExperienceBody(rules: seq<Rule>, bullets: bool, showScores: bool, xs: seq<Scored<Experience>>): string
    decreases |xs|
  {
    if xs == [] then ""
    else
      ExperienceBody(rules, bullets, showScores, xs[..|xs| - 1]) + ExperienceItem(rules, bullets, showScores, xs[|xs| - 1])
  }

  function ExperienceSection(rules: seq<Rule>, bullets: bool, showScores: bool, xs: seq<Scored<Experience>>): string {
    "\\section{Work Experience}\n" + ExperienceBody(rules, bullets, showScores, xs)
  }

  /** The section loop: one entry (with its score comment when shown) per item, in order. */
  method RenderExperience(rules: seq<Rule>, bullets: bool, showScores: bool, xs: seq<Scored<Experience>>)
    returns (section: string)
    ensures section == ExperienceSection(rules, bullets, showScores, xs)
  {
    var body := "";
    var i := 0;
    while i < |xs|
      invariant 0 <= i <= |xs|
      invariant body == ExperienceBody(rules, bullets, showScores, xs[..i])
    {
      ExperienceBodyStep(rules, bullets, showScores, xs, i);
      body := body + ExperienceItem(rules, bullets, showScores, xs[i]);
      i := i + 1;
    }
    assert xs[..i] == xs;
    section := "\\section{Work Experience}\n" + body;
  }

  lemma {:induction false} ExperienceBodyStep(rules: seq<Rule>, bullets: bool, showScores: bool, xs: seq<Scored<Experience>>, i: nat)
    requires i < |xs|
    ensures ExperienceBody(rules, bullets, showScores, xs[..i + 1])
         == ExperienceBody(rules, bullets, showScores, xs[..i])
            + ExperienceItem(rules, bullets, showScores, xs[i])
  {
    assert xs[..i + 1][..i] == xs[..i];
  }

  /** Rendering is per entry and in input order: the body of a concatenation is the
      concatenation of the bodies. */
  lemma {:induction false} ExperienceBodyConcat(rules: seq<Rule>, bullets: bool, showScores: bool, xs: seq<Scored<Experience>>, ys: seq<Scored<Experience>>)
    ensures ExperienceBody(rules, bullets, showScores, xs + ys)
         == ExperienceBody(rules, bullets, showScores, xs) + ExperienceBody(rules, bullets, showScores, ys)
    decreases |ys|
  {
    if ys == [] {
      assert xs + ys == xs;
    } else {
      var n := |ys| - 1;
      assert (xs + ys)[..|xs + ys| - 1] == xs + ys[..n];
      assert (xs + ys)[|xs + ys| - 1] == ys[n];
      ExperienceBodyConcat(rules, bullets, showScores, xs, ys[..n]);
      AppendAssoc(ExperienceBody(rules, bullets, showScores, xs), ExperienceBody(rules, bullets, showScores, ys[..n]),
        ExperienceItem(rules, bullets, showScores, ys[n]));
    }
  }

  lemma {:induction false} AppendAssoc(a: string, b: string, c: string)
    ensures (a + b) + c == a + (b + c)
  {
  }

  lemma {:induction false} EmptyPrefix(a: string)
    ensures "" + a == a
  {
  }

  /** The items paired with score 0, as the untailored generators pair them. */
  function Unscored<T>(xs: seq<T>): (r: seq<Scored<T>>)
    ensures |r| == |xs|
    ensures forall i :: 0 <= i < |xs| ==> r[i] == (xs[i], 0)
  {
    if xs == [] then [] else [(xs[0], 0)] + Unscored(xs[1..])
  }

  lemma {:induction false} UnscoredSnoc<T>(xs: seq<T>, x: T)
    ensures Unscored(xs + [x]) == Unscored(xs) + [(x, 0)]
  {
    assert |Unscored(xs + [x])| == |Unscored(xs) + [(x, 0)]|;
    forall i | 0 <= i < |xs| + 1 ensures Unscored(xs + [x])[i] == (Unscored(xs) + [(x, 0)])[i] {
      if i < |xs| {
        assert (xs + [x])[i] == xs[i];
      }
    }
  }

  /** Without scores shown, an item is just its entry. */
  lemma {:induction false} UnscoredItem(rules: seq<Rule>, bullets: bool, e: Experience)
    ensures ExperienceItem(rules, bullets, false, (e, 0)) == ExperienceEntry(rules, bullets, e)
  {
    EmptyPrefix(ExperienceEntry(rules, bullets, e));
  }

  // ---------------------------------------------------------------- education

  /** Where an education entry breaks lines: after the opening brace, and after each part. */
  datatype Layout = Layout(open: string, sep: string)

  function Supervisors(rules: seq<Rule>, names: seq<string>): seq<string>
    decreases |names|
  {
    if names == [] then [] else Supervisors(rules, names[..|names| - 1]) + [ApplyRules(rules, names[|names| - 1])]
  }

  function MobilityItems(rules: seq<Rule>, sep: string, ms: seq<string>): string
    decreases |ms|
  {
    if ms == [] then "" else MobilityItems(rules, sep, ms[..|ms| - 1]) + "\\item " + ApplyRules(rules, ms[|ms| - 1]) + sep
  }

  /** The optional parts, each present only when its key is, in the fixed order thesis,
      supervisors, co-direction, mobility. */
  function ThesisPart(rules: seq<Rule>, sep: string, e: Education): string {
    if e.thesis.Some? then "\\textbf{Thesis:} ``" + ApplyRules(rules, e.thesis.value) + "''\\\\" + sep else ""
  }

  function SupervisorsPart(rules: seq<Rule>, sep: string, e: Education): string {
    if e.supervisors.Some? then "\\textbf{Supervisors:} " + Join(Supervisors(rules, e.supervisors.value), " \\& ") + "\\\\" + sep else ""
  }

  function CoDirectionPart(rules: seq<Rule>, sep: string, e: Education): string {
    if e.coDirection.Some? then "\\textbf{Co-direction:} " + ApplyRules(rules, e.coDirection.value) + "\\\\" + sep else ""
  }

  function MobilityPart(rules: seq<Rule>, sep: string, e: Education): string {
    if e.mobility.Some? then
      "\\textbf{International Mobility:}" + sep + "\\begin{itemize}" + sep
      + MobilityItems(rules, sep, e.mobility.value) + "\\end{itemize}" + sep
    else ""
  }

  function EducationOpening(rules: seq<Rule>, layout: Layout, e: Education): string {
    "\\cventry{" + FormatDateRange(e.startDate, e.endDate) + "}{" + ApplyRules(rules, e.degree)
    + "}{" + ApplyRules(rules, e.institution) + "}{" + ApplyRules(rules, e.location) + "}{}{" + layout.open
  }

  function EducationEntry(rules: seq<Rule>, layout: Layout, e: Education): string {
    EducationOpening(rules, layout, e)
    + ThesisPart(rules, layout.sep, e) + SupervisorsPart(rules, layout.sep, e)
    + CoDirectionPart(rules, layout.sep, e) + MobilityPart(rules, layout.sep, e)
    + "}\n"
  }

  function EducationBody(rules: seq<Rule>, layout: Layout, es: seq<Education>): string
    decreases |es|
  {
    if es == [] then "" else EducationBody(rules, layout, es[..|es| - 1]) + EducationEntry(rules, layout, es[|es| - 1])
  }

  function EducationSection(rules: seq<Rule>, layout: Layout, es: seq<Education>): string {
    "\\section{Education}\n" + EducationBody(rules, layout, es)
  }

  method RenderEducation(rules: seq<Rule>, layout: Layout, es: seq<Education>) returns (section: string)
    ensures section == EducationSection(rules, layout, es)
  {
    var body := "";
    var i := 0;
    while i < |es|
      invariant 0 <= i <= |es|
      invariant body == EducationBody(rules, layout, es[..i])
    {
      assert es[..i + 1][..i] == es[..i];
      body := body + EducationEntry(rules, layout, es[i]);
      i := i + 1;
    }
    assert es[..i] == es;
    section := "\\section{Education}\n" + body;
  }

  /** An entry without optional keys is just the opening and the closing brace. */
  lemma {:induction false} EducationWithoutOptionals(rules: seq<Rule>, layout: Layout, e: Education)
    requires e.thesis.None? && e.supervisors.None? && e.coDirection.None? && e.mobility.None?
    ensures EducationEntry(rules, layout, e) == EducationOpening(rules, layout, e) + "}\n"
  {
  }

  // ------------------------------------------------ one line per entry with the `\\n` layout

  /** Every text field of the entry is free of line breaks. */
  predicate EducationNoNewline(e: Education) {
    NoNewline(e.startDate) && NoNewline(e.endDate) && NoNewline(e.degree)
    && NoNewline(e.institution) && NoNewline(e.location)
    && (e.thesis.Some? ==> NoNewline(e.thesis.value))
    && (e.coDirection.Some? ==> NoNewline(e.coDirection.value))
    && (e.supervisors.Some? ==> forall k :: 0 <= k < |e.supervisors.value| ==> NoNewline(e.supervisors.value[k]))
    && (e.mobility.Some? ==> forall k :: 0 <= k < |e.mobility.value| ==> NoNewline(e.mobility.value[k]))
  }

  lemma {:induction false} DateRangeNoNewline(start: string, end: string)
    requires NoNewline(start) && NoNewline(end)
    ensures NoNewline(FormatDateRange(start, end))
  {
    var r := FormatDateRange(start, end);
    assert r == r[..|start| + 2] + r[|start| + 2..];
  }

  lemma {:induction false} JoinNoNewline(parts: seq<string>, sep: string)
    requires NoNewline(sep) && forall k :: 0 <= k < |parts| ==> NoNewline(parts[k])
    ensures NoNewline(Join(parts, sep))
    decreases |parts|
  {
    if |parts| > 1 {
      JoinNoNewline(parts[1..], sep);
    }
  }

  lemma {:induction false} SupervisorsNoNewline(rules: seq<Rule>, names: seq<string>)
    requires WellFormed(rules) && forall k :: 0 <= k < |names| ==> NoNewline(names[k])
    ensures |Supervisors(rules, names)| == |names|
    ensures forall k :: 0 <= k < |names| ==> NoNewline(Supervisors(rules, names)[k])
    decreases |names|
  {
    if names != [] {
      var n := |names| - 1;
      SupervisorsNoNewline(rules, names[..n]);
      ApplyRulesNoNewline(rules, names[n]);
    }
  }

  lemma {:induction false} MobilityNoNewline(rules: seq<Rule>, sep: string, ms: seq<string>)
    requires WellFormed(rules) && NoNewline(sep) && forall k :: 0 <= k < |ms| ==> NoNewline(ms[k])
    ensures NoNewline(MobilityItems(rules, sep, ms))
    decreases |ms|
  {
    if ms != [] {
      var n := |ms| - 1;
      MobilityNoNewline(rules, sep, ms[..n]);
      ApplyRulesNoNewline(rules, ms[n]);
    }
  }

  lemma {:induction false} OpeningNoNewline(rules: seq<Rule>, e: Education)
    requires WellFormed(rules) && EducationNoNewline(e)
    ensures NoNewline(EducationOpening(rules, Layout(BackslashN, BackslashN), e))
  {
    DateRangeNoNewline(e.startDate, e.endDate);
    ApplyRulesNoNewline(rules, e.degree);
    ApplyRulesNoNewline(rules, e.institution);
    ApplyRulesNoNewline(rules, e.location);
  }

  lemma {:induction false} PartsNoNewline(rules: seq<Rule>, e: Education)
    requires WellFormed(rules) && EducationNoNewline(e)
    ensures NoNewline(ThesisPart(rules, BackslashN, e)) && NoNewline(SupervisorsPart(rules, BackslashN, e))
    ensures NoNewline(CoDirectionPart(rules, BackslashN, e)) && NoNewline(MobilityPart(rules, BackslashN, e))
  {
    if e.thesis.Some? {
      ApplyRulesNoNewline(rules, e.thesis.value);
    }
    if e.coDirection.Some? {
      ApplyRulesNoNewline(rules, e.coDirection.value);
    }
    if e.supervisors.Some? {
      SupervisorsNoNewline(rules, e.supervisors.value);
      JoinNoNewline(Supervisors(rules, e.supervisors.value), " \\& ");
    }
    if e.mobility.Some? {
      MobilityNoNewline(rules, BackslashN, e.mobility.value);
    }
  }

  /** With the `\\n` layout an education entry is a single line: its only line break is the last
      character, because every `\\n` writes a backslash and an `n`. */
  lemma {:induction false} EducationEntryOneLine(rules: seq<Rule>, e: Education)
    requires WellFormed(rules) && EducationNoNewline(e)
    ensures var r := EducationEntry(rules, Layout(BackslashN, BackslashN), e);
      |r| > 0 && r[|r| - 1] == '\n' && NoNewline(r[..|r| - 1])
  {
    var layout := Layout(BackslashN, BackslashN);
    OpeningNoNewline(rules, e);
    PartsNoNewline(rules, e);
    var line := EducationOpening(rules, layout, e)
      + ThesisPart(rules, layout.sep, e) + SupervisorsPart(rules, layout.sep, e)
      + CoDirectionPart(rules, layout.sep, e) + MobilityPart(rules, layout.sep, e) + "}";
    assert NoNewline(line);
    assert EducationEntry(rules, layout, e) == line + "\n";
    assert (line + "\n")[..|line|] == line;
  }

  // ---------------------------------------------------------------- projects

  /** One project `\cventry`; `inner` surrounds the description and `tail` ends the entry. */
  function ProjectEntry(rules: seq<Rule>, inner: string, tail: string, p: Project): string {
    "\\cventry{" + FormatDateRange(p.startDate, p.endDate) + "}{" + ApplyRules(rules, p.title)
    + "}{" + ApplyRules(rules, p.organization) + "}{}{}{" + inner + ApplyRules(rules, p.description) + inner + "}" + tail
  }

  /** An entry, preceded by its relevance comment when scores are shown. */
  function ProjectItem(rules: seq<Rule>, inner: string, tail: string, showScores: bool, x: Scored<Project>): string {
    (if showScores then ScoreComment(x.1) else "") + ProjectEntry(rules, inner, tail, x.0)
  }

  function ProjectBody(rules: seq<Rule>, inner: string, tail: string, showScores: bool, xs: seq<Scored<Project>>): string
    decreases |xs|
  {
    if xs == [] then ""
    else
      ProjectBody(rules, inner, tail, showScores, xs[..|xs| - 1]) + ProjectItem(rules, inner, tail, showScores, xs[|xs| - 1])
  }

  function ProjectSection(rules: seq<Rule>, inner: string, tail: string, showScores: bool, xs: seq<Scored<Project>>): string {
    "\\section{Research Projects}\n" + ProjectBody(rules, inner, tail, showScores, xs)
  }

  method RenderProjects(rules: seq<Rule>, inner: string, tail: string, showScores: bool, xs: seq<Scored<Project>>)
    returns (section: string)
    ensures section == ProjectSection(rules, inner, tail, showScores, xs)
  {
    var body := "";
    var i := 0;
    while i < |xs|
      invariant 0 <= i <= |xs|
      invariant body == ProjectBody(rules, inner, tail, showScores, xs[..i])
    {
      assert xs[..i + 1][..i] == xs[..i];
      body := body + ProjectItem(rules, inner, tail, showScores, xs[i]);
      i := i + 1;
    }
    assert xs[..i] == xs;
    section := "\\section{Research Projects}\n" + body;
  }

  predicate ProjectNoNewline(p: Project) {
    NoNewline(p.startDate) && NoNewline(p.endDate) && NoNewline(p.title)
    && NoNewline(p.organization) && NoNewline(p.description)
  }

  /** With the `\\n` layout the whole projects body contains no line break at all. */
  lemma {:induction false} ProjectBodyNoNewline(rules: seq<Rule>, xs: seq<Scored<Project>>)
    requires WellFormed(rules) && forall k :: 0 <= k < |xs| ==> ProjectNoNewline(xs[k].0)
    ensures NoNewline(ProjectBody(rules, BackslashN, BackslashN, false, xs))
    decreases |xs|
  {
    if xs != [] {
      var n := |xs| - 1;
      var p := xs[n].0;
      ProjectBodyNoNewline(rules, xs[..n]);
      DateRangeNoNewline(p.startDate, p.endDate);
      ApplyRulesNoNewline(rules, p.title);
      ApplyRulesNoNewline(rules, p.organization);
      ApplyRulesNoNewline(rules, p.description);
    }
  }

  // ---------------------------------------------------------------- skills and hobbies

  function SkillsSection(pe: string, ds: string, prog: string, langs: string): string {
    "\\section{Technical Skills}\n"
    + "\\cvitem{Process Engineering}{" + pe + "}\n"
    + "\\cvitem{Data Science}{" + ds + "}\n"
    + "\\cvitem{Programming}{" + prog + "}\n"
    + "\\cvitem{Languages}{" + langs + "}\n\n"
  }

  /** The four skill lists in fixed order, each through `format_skills` (or the plain escaped join). */
  method RenderSkills(rules: seq<Rule>, skills: Skills, jobKeywords: seq<Category>, highlight: bool)
    returns (section: string)
    ensures section == SkillsSection(
      Join(FormatSkillList(rules, skills.processEngineering, jobKeywords, highlight), ", "),
      Join(FormatSkillList(rules, skills.dataScience, jobKeywords, highlight), ", "),
      Join(FormatSkillList(rules, skills.programming, jobKeywords, highlight), ", "),
      Join(FormatSkillList(rules, skills.languages, jobKeywords, highlight), ", "))
  {
    var pe := FormatSkills(rules, skills.processEngineering, jobKeywords, highlight);
    var ds := FormatSkills(rules, skills.dataScience, jobKeywords, highlight);
    var prog := FormatSkills(rules, skills.programming, jobKeywords, highlight);
    var langs := FormatSkills(rules, skills.languages, jobKeywords, highlight);
    section := "\\section{Technical Skills}\n";
    section := section + "\\cvitem{Process Engineering}{" + pe + "}\n";
    section := section + "\\cvitem{Data Science}{" + ds + "}\n";
    section := section + "\\cvitem{Programming}{" + prog + "}\n";
    section := section + "\\cvitem{Languages}{" + langs + "}\n\n";
  }

  /** Without highlighting, a skill list is its escaped skills joined with ", ". */
  lemma {:induction false} PlainSkillList(rules: seq<Rule>, skills: seq<string>, jobKeywords: seq<Category>)
    ensures |FormatSkillList(rules, skills, jobKeywords, false)| == |skills|
    ensures forall k :: 0 <= k < |skills| ==> FormatSkillList(rules, skills, jobKeywords, false)[k] == ApplyRules(rules, skills[k])
    decreases |skills|
  {
    if skills != [] {
      PlainSkillList(rules, skills[..|skills| - 1], jobKeywords);
    }
  }

  function HobbyEntry(rules: seq<Rule>, tail: string, hobby: (string, string)): string {
    "\\cvitem{" + CategoryTitle(hobby.0) + ": }{" + ApplyRules(rules, hobby.1) + "}" + tail
  }

  function HobbiesBody(rules: seq<Rule>, tail: string, hobbies: seq<(string, string)>): string
    decreases |hobbies|
  {
    if hobbies == [] then "" else HobbiesBody(rules, tail, hobbies[..|hobbies| - 1]) + HobbyEntry(rules, tail, hobbies[|hobbies| - 1])
  }

  function HobbiesSection(rules: seq<Rule>, tail: string, hobbies: seq<(string, string)>): string {
    "\\section{Hobbies \\& Interests}\n" + HobbiesBody(rules, tail, hobbies)
  }

  method RenderHobbies(rules: seq<Rule>, tail: string, hobbies: seq<(string, string)>) returns (section: string)
    ensures section == HobbiesSection(rules, tail, hobbies)
  {
    var body := "";
    var i := 0;
    while i < |hobbies|
      invariant 0 <= i <= |hobbies|
      invariant body == HobbiesBody(rules, tail, hobbies[..i])
    {
      assert hobbies[..i + 1][..i] == hobbies[..i];
      body := body + HobbyEntry(rules, tail, hobbies[i]);
      i := i + 1;
    }
    assert hobbies[..i] == hobbies;
    section := "\\section{Hobbies \\& Interests}\n" + body;
  }

  lemma {:induction false} TitleFromNoUnderscore(s: string, after: bool)
    requires '_' !in s
    ensures '_' !in TitleFrom(s, after)
    decreases |s|
  {
    if s != [] {
      assert s[1..] == s[1..] && forall x :: x in s[1..] ==> x in s;
      TitleFromNoUnderscore(s[1..], IsLetter(s[0]));
    }
  }

  lemma {:induction false} ReplaceCharRemoves(s: string, c: char, r: string)
    requires c !in r
    ensures c !in ReplaceChar(s, c, r)
    decreases |s|
  {
    if s != [] {
      ReplaceCharRemoves(s[1..], c, r);
    }
  }

  /** A hobby title never shows an underscore: underscores become spaces before title-casing. */
  lemma {:induction false} CategoryTitleNoUnderscore(category: string)
    ensures '_' !in CategoryTitle(category)
  {
    ReplaceCharRemoves(category, '_', " ");
    TitleFromNoUnderscore(ReplaceChar(category, '_', " "), false);
  }
}
