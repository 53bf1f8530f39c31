/** `CVLatexGenerator` of scripts/generate_cv.py (and its copy generate_cv.py): the fixed-template
    CV, escaped with the ten-rule table, with `\\n` (backslash, letter n) where the education,
    project and hobby templates write a line separator. The generator holds only the loaded data,
    which it never changes. */
module CvLatexGenerator {
  import opened Text
  import opened LatexFormat
  import opened Profile
  import opened Relevance
  import opened Sections

  /** The layout of the education entries: `\\n` after the opening brace and after each part. */
  const EducationLayout: Layout := Layout(BackslashN, BackslashN)

  /** `generate_latex`: header, about, experience, education, projects, skills, hobbies and
      footer, in that order. */
  ghost function Document(data: CvData): string {
    FixedPreamble + PersonalBlock(TenRules, data.personal)
    + AboutSection(TenRules, data.personal.about)
    + ExperienceSection(TenRules, false, false, Unscored(data.experience))
    + EducationSection(TenRules, EducationLayout, data.education)
    + ProjectSection(TenRules, BackslashN, BackslashN, false, Unscored(data.projects))
    + SkillsSection(
        Join(FormatSkillList(TenRules, data.skills.processEngineering, [], false), ", "),
        Join(FormatSkillList(TenRules, data.skills.dataScience, [], false), ", "),
        Join(FormatSkillList(TenRules, data.skills.programming, [], false), ", "),
        Join(FormatSkillList(TenRules, data.skills.languages, [], false), ", "))
    + HobbiesSection(TenRules, BackslashN, data.hobbies)
    + Footer
  }

  method GenerateLatex(data: CvData) returns (latex: string)
    ensures latex == Document(data)
  {
    var header := FixedPreamble + PersonalBlock(TenRules, data.personal);
    var about := AboutSection(TenRules, data.personal.about);
    var experience := RenderExperience(TenRules, false, false, Unscored(data.experience));
    var education := RenderEducation(TenRules, EducationLayout, data.education);
    var projects := RenderProjects(TenRules, BackslashN, BackslashN, false, Unscored(data.projects));
    var skills := RenderSkills(TenRules, data.skills, [], false);
    var hobbies := RenderHobbies(TenRules, BackslashN, data.hobbies);
    latex := header + about + experience + education + projects + skills + hobbies + Footer;
  }

  /** Each skill list is its escaped skills joined with ", ": nothing is bolded. */
  lemma {:induction false} SkillsPlain(skills: seq<string>)
    ensures |FormatSkillList(TenRules, skills, [], false)| == |skills|
    ensures forall k :: 0 <= k < |skills| ==> FormatSkillList(TenRules, skills, [], false)[k] == ApplyRules(TenRules, skills[k])
  {
    PlainSkillList(TenRules, skills, []);
  }

  /** The experience section has one itemize entry per experience, in the data file's order. */
  lemma {:induction false} ExperienceInOrder(xs: seq<Experience>, x: Experience)
    ensures ExperienceBody(TenRules, false, false, Unscored(xs + [x]))
         == ExperienceBody(TenRules, false, false, Unscored(xs)) + ExperienceEntry(TenRules, false, x)
  {
    UnscoredSnoc(xs, x);
    var u := Unscored(xs) + [(x, 0)];
    assert u[..|u| - 1] == Unscored(xs);
    UnscoredItem(TenRules, false, x);
  }

  /** With newline-free data, each education entry is one line, since every separator inside it
      is a backslash followed by the letter n. */
  lemma {:induction false} EducationEntriesAreLines(e: Education)
    requires EducationNoNewline(e)
    ensures var r := EducationEntry(TenRules, EducationLayout, e);
      |r| > 0 && r[|r| - 1] == '\n' && NoNewline(r[..|r| - 1])
  {
    assert WellFormed(TenRules);
    EducationEntryOneLine(TenRules, e);
  }
}
