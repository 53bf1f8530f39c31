/** `CVGenerator` of scripts/cv_generator.py: the CV generator with an optional tailoring mode.
    It escapes with the nine-rule list, writes experience responsibilities as `\textbullet` lines,
    and keeps its tailoring state in three fields that `generate_latex` and `extract_keywords`
    update: `is_tailored`, `job_keywords` and the `keyword_scores` counter. */
module CvGenerator {
  import opened Wrappers
  import opened Text
  import opened LatexFormat
  import opened Ranking
  import opened Relevance
  import opened Profile
  import opened Sections
  import opened Tailoring

  /** Education parts are separated by a space and the entry opens without a separator. */
  const EducationLayout: Layout := Layout("", " ")

  /** A job description switches tailoring on only when it is truthy (given and non-empty). */
  predicate Truthy(jobDescription: Option<string>) {
    jobDescription.Some? && jobDescription.value != ""
  }

  class Generator {
    const data: CvData
    var isTailored: bool
    var jobKeywords: seq<Category>
    var keywordScores: Counter

    constructor (data: CvData)
      ensures this.data == data
      ensures !isTailored && jobKeywords == [] && keywordScores == []
    {
      this.data := data;
      isTailored := false;
      jobKeywords := [];
      keywordScores := [];
    }

    /** `extract_keywords`: the found keywords per category; the counter field accumulates one
        increment per found keyword. */
    method ExtractKeywords(text: string) returns (found: seq<Category>)
      modifies this
      ensures found == FoundKeywords(SkillKeywords, text)
      ensures keywordScores == AddFound(old(keywordScores), found)
      ensures isTailored == old(isTailored) && jobKeywords == old(jobKeywords)
    {
      found, keywordScores := ScanKeywords(SkillKeywords, text, keywordScores);
    }

    /** `calculate_relevance` over the stored job keywords. */
    method CalculateRelevance(itemText: string) returns (score: nat)
      ensures score == Score(jobKeywords, itemText, None)
    {
      score := Relevance.CalculateRelevance(jobKeywords, itemText, None);
    }

    method ScoreExperience(e: Experience) returns (score: nat)
      ensures score == Score(jobKeywords, ExperienceText(e), None)
    {
      score := CalculateRelevance(ExperienceText(e));
    }

    method ScoreProject(p: Project) returns (score: nat)
      ensures score == Score(jobKeywords, ProjectText(p), None)
    {
      score := CalculateRelevance(ProjectText(p));
    }

    /** The tailoring switch of `generate_latex`: a truthy job description switches tailoring on
        and stores its keywords (bumping the counter); otherwise the state is left as it was, so a
        generator tailored once stays tailored. */
    method Tailor(jobDescription: Option<string>)
      modifies this
      ensures Truthy(jobDescription) ==>
        (isTailored && jobKeywords == FoundKeywords(SkillKeywords, jobDescription.value)
         && keywordScores == AddFound(old(keywordScores), jobKeywords))
      ensures !Truthy(jobDescription) ==>
        (isTailored == old(isTailored) && jobKeywords == old(jobKeywords) && keywordScores == old(keywordScores))
    {
      if jobDescription.Some? && jobDescription.value != "" {
        isTailored := true;
        jobKeywords := ExtractKeywords(jobDescription.value);
      }
    }

    /** `generate_latex`: the tailoring switch, then the document for the new state. */
    method GenerateLatex(jobDescription: Option<string>) returns (latex: string)
      modifies this
      ensures Truthy(jobDescription) ==>
        (isTailored && jobKeywords == FoundKeywords(SkillKeywords, jobDescription.value)
         && keywordScores == AddFound(old(keywordScores), jobKeywords))
      ensures !Truthy(jobDescription) ==>
        (isTailored == old(isTailored) && jobKeywords == old(jobKeywords) && keywordScores == old(keywordScores))
      ensures latex == Document(data, isTailored, jobKeywords, keywordScores)
    {
      Tailor(jobDescription);
      // Passing the mode as a literal lets each branch see only its own half of Document.
      if isTailored {
        latex := Render(data, true, jobKeywords, keywordScores);
      } else {
        latex := Render(data, false, jobKeywords, keywordScores);
      }
    }
  }

  /** Experience as rendered: ranked by relevance when tailored, else in input order with score 0. */
  function ExperienceOrder(data: CvData, tailored: bool, jobKeywords: seq<Category>): seq<Scored<Experience>> {
    if tailored then RankExperiences(jobKeywords, data.experience) else Unscored(data.experience)
  }

  function ProjectOrder(data: CvData, tailored: bool, jobKeywords: seq<Category>): seq<Scored<Project>> {
    if tailored then RankProjects(jobKeywords, data.projects) else Unscored(data.projects)
  }

  /** The document for a generator state: header, about (with the tailoring comment when
      tailored), experience, education, projects, skills (bolded when tailored), hobbies, footer. */
  ghost function Document(data: CvData, tailored: bool, jobKeywords: seq<Category>, scores: Counter): string {
    FixedPreamble + PersonalBlock(NineRules, data.personal)
    + (AboutSection(NineRules, data.personal.about) + (if tailored then TailoredComment(scores) else ""))
    + ExperienceSection(NineRules, true, tailored, ExperienceOrder(data, tailored, jobKeywords))
    + EducationSection(NineRules, EducationLayout, data.education)
    + ProjectSection(NineRules, "", "\n", tailored, ProjectOrder(data, tailored, jobKeywords))
    + SkillsSection(
        Join(FormatSkillList(NineRules, data.skills.processEngineering, jobKeywords, tailored), ", "),
        Join(FormatSkillList(NineRules, data.skills.dataScience, jobKeywords, tailored), ", "),
        Join(FormatSkillList(NineRules, data.skills.programming, jobKeywords, tailored), ", "),
        Join(FormatSkillList(NineRules, data.skills.languages, jobKeywords, tailored), ", "))
    + HobbiesSection(NineRules, "\n", data.hobbies)
    + Footer
  }

  /** The section generators over a generator state, concatenated in order. */
  method Render(data: CvData, tailored: bool, jobKeywords: seq<Category>, scores: Counter) returns (latex: string)
    ensures latex == Document(data, tailored, jobKeywords, scores)
  {
    var header := FixedPreamble + PersonalBlock(NineRules, data.personal);
    // TailoredComment is "" for an empty counter, which covers the source's emptiness test.
    var comment := if tailored then TailoredComment(scores) else "";
    var about := AboutSection(NineRules, data.personal.about) + comment;
    var experience := RenderExperience(NineRules, true, tailored, ExperienceOrder(data, tailored, jobKeywords));
    var education := RenderEducation(NineRules, EducationLayout, data.education);
    var projects := RenderProjects(NineRules, "", "\n", tailored, ProjectOrder(data, tailored, jobKeywords));
    var skills := RenderSkills(NineRules, data.skills, jobKeywords, tailored);
    var hobbies := RenderHobbies(NineRules, "\n", data.hobbies);
    latex := header + about + experience + education + projects + skills + hobbies + Footer;
  }

  /** In basic mode experience and projects keep the data file's order, and no skill is bolded. */
  lemma {:induction false} BasicMode(data: CvData, jobKeywords: seq<Category>, skills: seq<string>)
    ensures |ExperienceOrder(data, false, jobKeywords)| == |data.experience|
    ensures forall i :: 0 <= i < |data.experience| ==> ExperienceOrder(data, false, jobKeywords)[i].0 == data.experience[i]
    ensures forall i :: 0 <= i < |data.projects| ==> ProjectOrder(data, false, jobKeywords)[i].0 == data.projects[i]
    ensures |FormatSkillList(NineRules, skills, jobKeywords, false)| == |skills|
    ensures forall k :: 0 <= k < |skills| ==> FormatSkillList(NineRules, skills, jobKeywords, false)[k] == ApplyRules(NineRules, skills[k])
  {
    PlainSkillList(NineRules, skills, jobKeywords);
  }

  /** In tailored mode experience and projects are stable descending rankings of the scored entries. */
  lemma {:induction false} TailoredMode(data: CvData, jobKeywords: seq<Category>, v: nat)
    ensures multiset(ExperienceOrder(data, true, jobKeywords)) == multiset(ScoredExperiences(jobKeywords, data.experience))
    ensures NonIncreasing(ExperienceOrder(data, true, jobKeywords))
    ensures WithScore(ExperienceOrder(data, true, jobKeywords), v) == WithScore(ScoredExperiences(jobKeywords, data.experience), v)
    ensures multiset(ProjectOrder(data, true, jobKeywords)) == multiset(ScoredProjects(jobKeywords, data.projects))
    ensures NonIncreasing(ProjectOrder(data, true, jobKeywords))
    ensures WithScore(ProjectOrder(data, true, jobKeywords), v) == WithScore(ScoredProjects(jobKeywords, data.projects), v)
  {
    RankExperiencesSpec(jobKeywords, data.experience, v);
    RankProjectsSpec(jobKeywords, data.projects, v);
  }
}
