/** `TailoredCVGenerator` of scripts/tailored_cv_generator.py: always tailored to a job
    description. It escapes with the ten-rule table, ranks experience and projects by relevance,
    cuts them to optional maxima, writes `\\\n` (backslash, line break) as the entry separator,
    and keeps `job_keywords` and the `keyword_scores` counter in fields. */
module TailoredCvGenerator {
  import opened Wrappers
  import opened Text
  import opened Seqs
  import opened LatexFormat
  import opened Ranking
  import opened Relevance
  import opened Profile
  import opened Sections
  import opened Tailoring

  const EducationLayout: Layout := Layout(BackslashNewline, BackslashNewline)

  class Generator {
    const data: CvData
    var jobKeywords: seq<Category>
    var keywordScores: Counter

    constructor (data: CvData)
      ensures this.data == data && jobKeywords == [] && keywordScores == []
    {
      this.data := data;
      jobKeywords := [];
      keywordScores := [];
    }

    /** `extract_keywords`: every category with its whole-word matches; the counter field gains
        one per found keyword. */
    method ExtractKeywords(text: string) returns (found: seq<Category>)
      modifies this
      ensures found == FoundKeywords(SkillKeywords, text)
      ensures keywordScores == AddFound(old(keywordScores), found)
      ensures jobKeywords == old(jobKeywords)
    {
      found, keywordScores := ScanKeywords(SkillKeywords, text, keywordScores);
    }

    /** `calculate_relevance(item_text, weights)`: without weights every category weighs 1. */
    method CalculateRelevance(itemText: string, weights: Option<map<string, nat>>) returns (score: nat)
      ensures score == Score(jobKeywords, itemText, weights)
    {
      score := Relevance.CalculateRelevance(jobKeywords, itemText, weights);
    }

    method ScoreExperience(e: Experience) returns (score: nat)
      ensures score == Score(jobKeywords, ExperienceText(e), None)
    {
      score := CalculateRelevance(ExperienceText(e), None);
    }

    method ScoreProject(p: Project) returns (score: nat)
      ensures score == Score(jobKeywords, ProjectText(p), None)
    {
      score := CalculateRelevance(ProjectText(p), None);
    }

    method ScorePublication(p: Publication) returns (score: nat)
      ensures score == Score(jobKeywords, PublicationText(p), None)
    {
      score := CalculateRelevance(PublicationText(p), None);
    }

    /** The first step of `generate_tailored_cv`: `self.job_keywords = self.extract_keywords(...)`. */
    method StoreKeywords(jobDescription: string)
      modifies this
      ensures jobKeywords == FoundKeywords(SkillKeywords, jobDescription)
      ensures keywordScores == AddFound(old(keywordScores), jobKeywords)
    {
      jobKeywords := ExtractKeywords(jobDescription);
    }

    /** `generate_tailored_cv`: extract and store the keywords, then render for the new state. */
    method GenerateTailoredCv(jobDescription: string, maxExperience: Option<int>, maxProjects: Option<int>)
      returns (latex: string)
      modifies this
      ensures jobKeywords == FoundKeywords(SkillKeywords, jobDescription)
      ensures keywordScores == AddFound(old(keywordScores), jobKeywords)
      ensures latex == Document(data, jobKeywords, keywordScores, maxExperience, maxProjects)
    {
      StoreKeywords(jobDescription);
      latex := Render(data, jobKeywords, keywordScores, maxExperience, maxProjects);
    }
  }

  /** The ranked experience, cut to the first `max_items` when that is truthy. */
  function ExperienceShown(data: CvData, jobKeywords: seq<Category>, maxItems: Option<int>): seq<Scored<Experience>> {
    ApplyLimit(RankExperiences(jobKeywords, data.experience), maxItems)
  }

  function ProjectsShown(data: CvData, jobKeywords: seq<Category>, maxItems: Option<int>): seq<Scored<Project>> {
    ApplyLimit(RankProjects(jobKeywords, data.projects), maxItems)
  }

  /** The tailored document: header, about with the tailoring comment, ranked experience,
      education, ranked projects, skills with matches bolded, hobbies, footer. */
  ghost function Document(data: CvData, jobKeywords: seq<Category>, scores: Counter,
                          maxExperience: Option<int>, maxProjects: Option<int>): string {
    FixedPreamble + PersonalBlock(TenRules, data.personal)
    + (AboutSection(TenRules, data.personal.about) + TailoredComment(scores))
    + ExperienceSection(TenRules, false, true, ExperienceShown(data, jobKeywords, maxExperience))
    + EducationSection(TenRules, EducationLayout, data.education)
    + ProjectSection(TenRules, BackslashNewline, BackslashNewline, true, ProjectsShown(data, jobKeywords, maxProjects))
    + SkillsSection(
        Join(FormatSkillList(TenRules, data.skills.processEngineering, jobKeywords, true), ", "),
        Join(FormatSkillList(TenRules, data.skills.dataScience, jobKeywords, true), ", "),
        Join(FormatSkillList(TenRules, data.skills.programming, jobKeywords, true), ", "),
        Join(FormatSkillList(TenRules, data.skills.languages, jobKeywords, true), ", "))
    + HobbiesSection(TenRules, BackslashNewline, data.hobbies)
    + Footer
  }

  method Render(data: CvData, jobKeywords: seq<Category>, scores: Counter,
                maxExperience: Option<int>, maxProjects: Option<int>) returns (latex: string)
    ensures latex == Document(data, jobKeywords, scores, maxExperience, maxProjects)
  {
    var header := FixedPreamble + PersonalBlock(TenRules, data.personal);
    var about := AboutSection(TenRules, data.personal.about) + TailoredComment(scores);
    var experience := RenderExperience(TenRules, false, true, ExperienceShown(data, jobKeywords, maxExperience));
    var education := RenderEducation(TenRules, EducationLayout, data.education);
    var projects := RenderProjects(TenRules, BackslashNewline, BackslashNewline, true, ProjectsShown(data, jobKeywords, maxProjects));
    var skills := RenderSkills(TenRules, data.skills, jobKeywords, true);
    var hobbies := RenderHobbies(TenRules, BackslashNewline, data.hobbies);
    latex := header + about + experience + education + projects + skills + hobbies + Footer;
  }

  /** `if max_items: items = items[:max_items]` after ranking: the shown entries are the top of the
      ranking, all of them for a falsy maximum, and `min(n, max_items)` of them for a positive one;
      their scores never increase. */
  lemma {:induction false} ExperienceShownSpec(data: CvData, jobKeywords: seq<Category>, maxItems: Option<int>)
    ensures var shown := ExperienceShown(data, jobKeywords, maxItems);
      var ranked := RankExperiences(jobKeywords, data.experience);
      shown == ranked[..|shown|] && NonIncreasing(shown)
      && (maxItems == None || maxItems == Some(0) ==> |shown| == |data.experience|)
      && (maxItems.Some? && maxItems.value > 0 ==>
            |shown| == if maxItems.value < |data.experience| then maxItems.value else |data.experience|)
  {
    var ranked := RankExperiences(jobKeywords, data.experience);
    SortDescSpec(ScoredExperiences(jobKeywords, data.experience));
    LimitSpec(ranked, maxItems);
    PrefixNonIncreasing(ranked, |ExperienceShown(data, jobKeywords, maxItems)|);
  }

  lemma {:induction false} ProjectsShownSpec(data: CvData, jobKeywords: seq<Category>, maxItems: Option<int>)
    ensures var shown := ProjectsShown(data, jobKeywords, maxItems);
      var ranked := RankProjects(jobKeywords, data.projects);
      shown == ranked[..|shown|] && NonIncreasing(shown)
      && (maxItems == None || maxItems == Some(0) ==> |shown| == |data.projects|)
      && (maxItems.Some? && maxItems.value > 0 ==>
            |shown| == if maxItems.value < |data.projects| then maxItems.value else |data.projects|)
  {
    var ranked := RankProjects(jobKeywords, data.projects);
    SortDescSpec(ScoredProjects(jobKeywords, data.projects));
    LimitSpec(ranked, maxItems);
    PrefixNonIncreasing(ranked, |ProjectsShown(data, jobKeywords, maxItems)|);
  }

  lemma {:induction false} PrefixNonIncreasing<T>(s: seq<Scored<T>>, n: nat)
    requires NonIncreasing(s) && n <= |s|
    ensures NonIncreasing(s[..n])
  {
    forall i, j | 0 <= i < j < n ensures s[..n][i].1 >= s[..n][j].1 {
      assert s[..n][i] == s[i] && s[..n][j] == s[j];
    }
  }
}
