/** The per-entry relevance texts and the relevance ranking shared by scripts/cv_generator.py and
    scripts/tailored_cv_generator.py (`score_experience`, `score_project`, `score_publication`,
    `sort_by_relevance`). Scores are the unweighted `calculate_relevance` of the entry's text. */
module Tailoring {
  import opened Wrappers
  import opened Text
  import opened Seqs
  import opened Ranking
  import opened Relevance
  import opened Profile

  /** `score_experience`'s text: position, organization, description (or "" when absent), then
      the responsibilities joined by spaces. */
  function ExperienceText(e: Experience): string {
    e.position + " " + e.organization + " " + e.description.GetOr("") + " " + Join(e.responsibilities, " ")
  }

  /** `score_project`'s text: title, description, organization. */
  function ProjectText(p: Project): string {
    p.title + " " + p.description + " " + p.organization
  }

  /** `score_publication`'s text: title, abstract (or "" when absent), venue. */
  function PublicationText(p: Publication): string {
    p.title + " " + p.summary.GetOr("") + " " + p.venue
  }

  /** A missing description scores as an empty one: the scorer never fails on the absent key. */
  lemma {:induction false} MissingDescriptionIsEmpty(e: Experience, jobKeywords: seq<Category>)
    requires e.description.None?
    ensures Score(jobKeywords, ExperienceText(e), None) == Score(jobKeywords, ExperienceText(e.(description := Some(""))), None)
  {
  }

  /** A missing abstract scores as an empty one. */
  lemma {:induction false} MissingAbstractIsEmpty(p: Publication, jobKeywords: seq<Category>)
    requires p.summary.None?
    ensures Score(jobKeywords, PublicationText(p), None) == Score(jobKeywords, PublicationText(p.(summary := Some(""))), None)
  {
  }

  /** `[(exp, score_experience(exp)) for exp in items]`. */
  function ScoredExperiences(jobKeywords: seq<Category>, xs: seq<Experience>): (r: seq<Scored<Experience>>)
    ensures |r| == |xs|
    ensures forall i :: 0 <= i < |xs| ==> r[i] == (xs[i], Score(jobKeywords, ExperienceText(xs[i]), None))
  {
    if xs == [] then [] else [(xs[0], Score(jobKeywords, ExperienceText(xs[0]), None))] + ScoredExperiences(jobKeywords, xs[1..])
  }

  function ScoredProjects(jobKeywords: seq<Category>, xs: seq<Project>): (r: seq<Scored<Project>>)
    ensures |r| == |xs|
    ensures forall i :: 0 <= i < |xs| ==> r[i] == (xs[i], Score(jobKeywords, ProjectText(xs[i]), None))
  {
    if xs == [] then [] else [(xs[0], Score(jobKeywords, ProjectText(xs[0]), None))] + ScoredProjects(jobKeywords, xs[1..])
  }

  function ScoredPublications(jobKeywords: seq<Category>, xs: seq<Publication>): (r: seq<Scored<Publication>>)
    ensures |r| == |xs|
    ensures forall i :: 0 <= i < |xs| ==> r[i] == (xs[i], Score(jobKeywords, PublicationText(xs[i]), None))
  {
    if xs == [] then [] else [(xs[0], Score(jobKeywords, PublicationText(xs[0]), None))] + ScoredPublications(jobKeywords, xs[1..])
  }

  /** `sort_by_relevance(items, score_experience)`. */
  function RankExperiences(jobKeywords: seq<Category>, xs: seq<Experience>): seq<Scored<Experience>> {
    SortDesc(ScoredExperiences(jobKeywords, xs))
  }

  function RankProjects(jobKeywords: seq<Category>, xs: seq<Project>): seq<Scored<Project>> {
    SortDesc(ScoredProjects(jobKeywords, xs))
  }

  /** The score of any text is 0 when no keyword was found in the job description. */
  lemma {:induction false} NothingFoundScoresZero(jobKeywords: seq<Category>, text: string)
    requires forall i :: 0 <= i < |jobKeywords| ==> jobKeywords[i].1 == []
    ensures Score(jobKeywords, text, None) == 0
    decreases |jobKeywords|
  {
    if jobKeywords != [] {
      NothingFoundScoresZero(jobKeywords[..|jobKeywords| - 1], text);
    }
  }

  /** When the job description matched nothing, every experience scores 0 and the ranking keeps
      the data file's order (the sort is stable). */
  lemma {:induction false} NothingFoundKeepsExperienceOrder(jobKeywords: seq<Category>, xs: seq<Experience>)
    requires forall i :: 0 <= i < |jobKeywords| ==> jobKeywords[i].1 == []
    ensures |RankExperiences(jobKeywords, xs)| == |xs|
    ensures forall i :: 0 <= i < |xs| ==> RankExperiences(jobKeywords, xs)[i] == (xs[i], 0)
  {
    var scored := ScoredExperiences(jobKeywords, xs);
    forall i | 0 <= i < |scored| ensures scored[i].1 == 0 {
      NothingFoundScoresZero(jobKeywords, ExperienceText(xs[i]));
    }
    SortDescEqualScores(scored, 0);
  }

  lemma {:induction false} NothingFoundKeepsProjectOrder(jobKeywords: seq<Category>, xs: seq<Project>)
    requires forall i :: 0 <= i < |jobKeywords| ==> jobKeywords[i].1 == []
    ensures |RankProjects(jobKeywords, xs)| == |xs|
    ensures forall i :: 0 <= i < |xs| ==> RankProjects(jobKeywords, xs)[i] == (xs[i], 0)
  {
    var scored := ScoredProjects(jobKeywords, xs);
    forall i | 0 <= i < |scored| ensures scored[i].1 == 0 {
      NothingFoundScoresZero(jobKeywords, ProjectText(xs[i]));
    }
    SortDescEqualScores(scored, 0);
  }

  /** The ranking is a permutation of the scored entries with non-increasing scores, and entries of
      equal score keep their input order. */
  lemma {:induction false} RankExperiencesSpec(jobKeywords: seq<Category>, xs: seq<Experience>, v: nat)
    ensures multiset(RankExperiences(jobKeywords, xs)) == multiset(ScoredExperiences(jobKeywords, xs))
    ensures NonIncreasing(RankExperiences(jobKeywords, xs))
    ensures WithScore(RankExperiences(jobKeywords, xs), v) == WithScore(ScoredExperiences(jobKeywords, xs), v)
  {
    SortDescSpec(ScoredExperiences(jobKeywords, xs));
    SortDescStable(ScoredExperiences(jobKeywords, xs), v);
  }

  lemma {:induction false} RankProjectsSpec(jobKeywords: seq<Category>, xs: seq<Project>, v: nat)
    ensures multiset(RankProjects(jobKeywords, xs)) == multiset(ScoredProjects(jobKeywords, xs))
    ensures NonIncreasing(RankProjects(jobKeywords, xs))
    ensures WithScore(RankProjects(jobKeywords, xs), v) == WithScore(ScoredProjects(jobKeywords, xs), v)
  {
    SortDescSpec(ScoredProjects(jobKeywords, xs));
    SortDescStable(ScoredProjects(jobKeywords, xs), v);
  }
}
