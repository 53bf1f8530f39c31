# CV and website generator — a Dafny model

The repository builds a personal academic website and a LaTeX CV (moderncv) from one JSON data
file. This project models its deterministic core in Dafny and proves what that core promises:

- **LaTeX escaping and date ranges** (`latex_format.dfy`). The nine-rule list of
  `scripts/cv_generator.py` and the ten-rule dict of the other generators are modelled as
  sequential whole-string `str.replace` passes. For the nine-rule list this is proved equal to a
  one-pass per-character map. For the ten-rule dict it is not, because its final backslash rule
  rewrites the backslashes that earlier rules introduced.
- **Job-description relevance** (`relevance.dfy`, `tailoring.dfy`, `ranking.dfy`):
  - Python's `\b` whole-word search and `findall` count over the keyword table;
  - the per-category `Counter` that `extract_keywords` bumps;
  - weighted and unweighted scores;
  - the stable descending `sorted(..., reverse=True)`;
  - `most_common`;
  - skill bolding.
- **The four LaTeX generators**:
  - `cv_latex_generator.dfy` covers `generate_cv.py` and `scripts/generate_cv.py`;
  - `cv_generator.dfy` covers the basic/tailored generator of `scripts/cv_generator.py`;
  - `tailored_cv_generator.dfy` covers `scripts/tailored_cv_generator.py`;
  - `configurable_cv_generator.dfy` covers `Python/cv_generator_configurable.py`, with its
    shallow configuration merge, per-section flags, filters and limits.

  The shared section renderers are in `sections.dfy`, over the data records of `profile.dfy`.
  Generators whose Python objects hold state are classes whose methods update their fields.
- **HTML extractors** (`activities_extractor.dfy`, `publications_extractor.dfy`):
  - first-match classifiers;
  - tag stripping;
  - the post-match logic of the location and event-name searches;
  - the exact `Published in:` venue/year regular expression and its comma-split fallback;
  - records whose optional keys appear only when non-empty;
  - the wholesale replacement of one key of the data file (`json.dfy`).
- **Publication list** (`publications_fetcher.dfy`): the exact card f-string,
  `generate_publications_html`, the newest-first year sort and the `re.sub` that swaps the
  body of every publication list of the page.
- **Auto-updaters** (`regeneration.dfy`, `auto_updater.dfy`, `configurable_auto_updater.dfy`):
  - the stored-hash change detection;
  - the marker-line filter of `run_script`;
  - the order and gating of the regeneration steps.

Files that appear twice in the repository are the same text (the root copies of
`activities_extractor.py`, `extract_publications.py`, `auto_update.py` and
`auto_update_configurable.py` equal their `Python/` copies). `generate_cv.py` and
`scripts/generate_cv.py` differ in their default file paths (the data file, the LaTeX output
and the `.tex` file compiled) and in how `compile_pdf` locates and runs `pdflatex` (only the
`scripts/` copy resolves the file's directory and runs there); neither the file writing nor
`compile_pdf` is modelled, so the generation they share is modelled once. Each duplicated file
is cited by one copy below.

Where the Python code reads a file, runs a process, hashes with MD5 or asks the clock, the
model takes the result as a parameter:
- a JSON file is `Missing | Unparsable | Parsed(value)`;
- a watched file is `Missing | Present(digest)`;
- a script run is `Exited(code, stdout, stderr) | TimedOut | Crashed`;
- the time is an `int`.

## Model

| member | source | states |
|---|---|---|
| Json.Subscript | Python/cv_generator_configurable.py:147 | `value[key]` succeeds exactly when the value is a dict holding the key, and then gives that entry; a dict without the key raises KeyError(key) |
| Json.ReplaceKey | Python/activities_extractor.py:190-207 | the data file is written exactly when it loaded as a dict and the extracted list is non-empty; the written dict has the key set to the list and every other key as it was |
| LatexFormat.EscapeLatex | scripts/cv_generator.py:107-110 | the replacement loop yields the rules applied one after the other, each to the whole string |
| LatexFormat.ApplyRulesConcat | scripts/cv_generator.py:107-108 | sequential replacement of single characters distributes over concatenation |
| LatexFormat.ApplyRulesPerChar | scripts/cv_generator.py:107-108 | sequential replacement is a per-character substitution: first character's image, then the rest |
| LatexFormat.ApplyRulesAbsent | scripts/cv_generator.py:107-108 | a string holding none of the rules' characters is returned unchanged |
| LatexFormat.CharImageAt | scripts/cv_generator.py:107-108 | a character first matched by rule k becomes what the later rules make of rule k's replacement |
| LatexFormat.OrderedIsTableMap | scripts/cv_generator.py:95-108 | when no rule's character occurs in an earlier rule's replacement, the loop equals the one-pass table map |
| LatexFormat.NineOrdered | scripts/cv_generator.py:95-105 | the nine-rule list (braces before `^` and `~`) has that property |
| LatexFormat.NineIsTableMap | scripts/cv_generator.py:95-108 | the nine-rule loop equals the one-pass per-character map of its table |
| LatexFormat.NineSamples | scripts/cv_generator.py:101-104 | under the nine rules `^` becomes exactly `\^{}`, `{` becomes `\{`, and a backslash passes through |
| LatexFormat.NinePlainUnchanged | scripts/cv_generator.py:95-110 | a string with none of `& % $ # _ { } ^ ~` is returned unchanged |
| LatexFormat.TenSimpleCharImage | scripts/tailored_cv_generator.py:144-159 | under the ten rules each of `& % $ # _ { }` becomes `\textbackslash{}` followed by the character |
| LatexFormat.BackslashRuleLast | scripts/tailored_cv_generator.py:144-159 | a backslash-prefixing rule followed later by a backslash rule yields the backslash replacement followed by the character |
| LatexFormat.TenAmpersand | scripts/tailored_cv_generator.py:144-159 | `"&"` escapes to `\textbackslash{}&`, which is not the table's `\&`; the ten-rule table is not ordered |
| LatexFormat.TenPlainUnchanged | scripts/tailored_cv_generator.py:144-161 | a string with none of the ten special characters is returned unchanged |
| LatexFormat.EscapeBasics | scripts/generate_cv.py:37-54 | both tables escape a string to "" exactly when it is "", and never introduce a line break |
| LatexFormat.FormatDateRange | scripts/cv_generator.py:112-116 | the result is the start, `--`, then `Present` when the lower-cased end is "present" and the end otherwise |
| LatexFormat.DateRangeCaseInsensitive | scripts/generate_cv.py:56-60 | any letter case of "present" gives `start--Present` |
| Relevance.SearchFrom | scripts/cv_generator.py:127-128 | `re.search(r'\b' + re.escape(k) + r'\b', t)` succeeds exactly when the keyword occurs at a position with a `\b` on both sides |
| Relevance.CountPositiveIffFound | scripts/cv_generator.py:141-142 | the `findall` count is positive exactly when the search finds the keyword |
| Relevance.NonWordEndNeedsWordAfter | scripts/cv_generator.py:127 | a keyword ending in a non-word character matches only when a word character follows it |
| Relevance.CPlusPlusQuirk | scripts/cv_generator.py:28 | `c++` and `c#` only match when a word character follows them |
| Relevance.FoundInSpec | scripts/cv_generator.py:125-129 | a keyword is listed under its category exactly when it occurs as a whole word in the lower-cased text; the list keeps the category's order |
| Relevance.FoundKeywords | scripts/cv_generator.py:123 | the result has every category of the table, in table order |
| Relevance.FoundKeywordsAt | scripts/cv_generator.py:122-129 | each category's list is the whole-word matches of its keywords in the lower-cased text |
| Relevance.IncrementCount | scripts/cv_generator.py:130 | `counter[key] += 1` adds one to that key's count and leaves the others |
| Relevance.AddFoundCount | scripts/cv_generator.py:125-130 | after an extraction each count grows by the number of keywords found under that name |
| Relevance.ExtractionCount | scripts/cv_generator.py:125-130 | each extraction adds to a category's count exactly the number of its keywords found (presence, not occurrences) |
| Relevance.SkillKeywordsDistinct | scripts/cv_generator.py:26-66 | the keyword table's categories are distinct |
| Relevance.AddFoundEmpty | scripts/cv_generator.py:209 | from an empty counter the counter stays empty exactly when no keyword was found |
| Relevance.ScanCategory | scripts/cv_generator.py:126-130 | the inner loop lists the category's keywords that occur as whole words, in order, and bumps its count once per listed keyword |
| Relevance.ScanKeywords | scripts/cv_generator.py:120-132 | the nested loops return the found keywords per category and the counter bumped once per found keyword |
| Relevance.CalculateRelevance | scripts/tailored_cv_generator.py:99-113 | the nested loops compute the sum, over every listed keyword, of its whole-word match count times its category weight |
| Relevance.UnweightedScorePositive | scripts/cv_generator.py:134-145 | with weight 1 the score is positive exactly when some listed keyword occurs as a whole word; no keywords score 0 |
| Relevance.KeywordMatchesPositive | scripts/cv_generator.py:140-143 | one category contributes a positive count exactly when one of its keywords is found |
| Relevance.WeightedScoreAtLeastUnweighted | scripts/tailored_cv_generator.py:101-111 | weights of at least 1 never give less than the unweighted score |
| Relevance.IsRelevantSkill | scripts/cv_generator.py:321-331 | the loops with `break` set `is_relevant` exactly when some keyword is a substring of the lower-cased skill |
| Relevance.FormatSkills | scripts/cv_generator.py:318-337 | the appending loop joined with ", " is the list of formatted skills |
| Relevance.BoldIff | scripts/cv_generator.py:333-336 | a skill is wrapped in `\textbf{}` exactly when highlighting is on and it matches, and otherwise is only escaped |
| Ranking.SortDescSpec | scripts/cv_generator.py:160-163 | the sort is a permutation of the scored items whose scores never increase |
| Ranking.SortDescStable | scripts/cv_generator.py:163 | for every score, the items with that score keep their input order |
| Ranking.SortDescEqualScores | scripts/cv_generator.py:163 | when every score is equal the order is kept |
| Ranking.SortDescItems | Python/fetch_publications.py:83 | the sorted records are a permutation of the input records |
| Ranking.ItemsWithScore | Python/fetch_publications.py:83 | the records of one key are the records satisfying that key's condition, in order |
| Ranking.MostCommonSpec | scripts/cv_generator.py:210 | `most_common(n)` gives exactly min(n, len) entries taken from the counter, largest first; no entry left out has a larger count than one returned; empty exactly when the counter is |
| Seqs.FilterSpec | Python/cv_generator_configurable.py:234 | a comprehension filter keeps exactly the elements satisfying the condition, in order |
| Seqs.LimitSpec | Python/cv_generator_configurable.py:237-239 | a truthy limit keeps a prefix of length `min(n, limit)`; a falsy limit keeps everything |
| Seqs.FilterThenLimit | Python/cv_generator_configurable.py:231-239 | filtering then limiting gives an order-preserving subsequence no longer than a positive limit |
| Seqs.PySliceTo | Python/cv_generator_configurable.py:239 | `s[:n]` is a prefix, counted from the end for a negative n |
| Seqs.FilterMapAll | Python/extract_publications.py:28-31 | the appending loop drops nothing exactly when every element gives a result |
| Seqs.FilterMapFrom | Python/extract_publications.py:28-31 | every kept result is the result of some element |
| Text.Lower | scripts/cv_generator.py:122 | `str.lower` keeps the length and lower-cases each ASCII letter |
| Text.DecimalDigits | Python/extract_publications.py:70 | `\d` matches the ASCII digits and the fullwidth digits |
| Text.StripLeftSpec | Python/activities_extractor.py:47 | `lstrip` removes exactly the leading whitespace |
| Text.StripRightSpec | Python/activities_extractor.py:47 | `rstrip` removes exactly the trailing whitespace |
| Text.Split | Python/extract_publications.py:76 | `split(c)` gives at least one part, none holding the separator |
| Text.JoinSplit | Python/extract_publications.py:76-78 | joining the parts of a split with the separator gives the string back |
| Text.SplitJoin | Python/fetch_publications.py:134 | splitting a join of separator-free parts gives the parts back |
| Text.Words | Python/activities_extractor.py:138 | `split()` never gives an empty part |
| Text.FirstMatch | Python/activities_extractor.py:76-93 | an if/elif chain of `any(k in text)` gives the label of the first rule with a keyword present, else the default |
| Text.NatToString | Python/fetch_publications.py:126 | `str(n)` is a non-empty string of digits |
| Text.ReplaceAllAbsent | Python/extract_publications.py:90 | `replace` leaves text without the pattern unchanged |
| Sections.TailoredCommentSpec | scripts/cv_generator.py:209-216 | the `% Tailored for:` comment is omitted exactly when the counter is empty and names at most three categories |
| Sections.CategoryTitlesLength | scripts/cv_generator.py:212-215 | one title per category of `most_common` |
| Sections.RenderExperience | scripts/cv_generator.py:233-249 | the section loop yields one entry per item, in order, each preceded by its score comment when scores are shown |
| Sections.ExperienceBodyConcat | scripts/generate_cv.py:111-122 | rendering is per entry: the body of a concatenation is the concatenation of the bodies |
| Sections.Unscored | scripts/cv_generator.py:231 | untailored items are paired with score 0 in input order |
| Sections.UnscoredItem | scripts/cv_generator.py:239-240 | without scores shown an item is just its entry |
| Sections.RenderEducation | scripts/generate_cv.py:126-158 | the section loop yields one entry per education record, in order |
| Sections.EducationWithoutOptionals | scripts/generate_cv.py:136-156 | an entry without thesis, supervisors, co-direction or mobility is the opening and the closing brace |
| Sections.EducationEntryOneLine | scripts/generate_cv.py:136-156 | with the `\\n` separators an education entry's only line break is its final character |
| Sections.RenderProjects | scripts/generate_cv.py:160-172 | the section loop yields one project entry per item, in order |
| Sections.ProjectBodyNoNewline | scripts/generate_cv.py:170 | with the `\\n` separators the projects body holds no line break at all |
| Sections.RenderSkills | scripts/cv_generator.py:339-342 | the four skill lists appear in the fixed order, each through `format_skills` |
| Sections.PlainSkillList | scripts/generate_cv.py:179-182 | without highlighting each skill is only escaped |
| Sections.RenderHobbies | scripts/generate_cv.py:186-195 | one `\cvitem` per hobby category, in order |
| Sections.CategoryTitleNoUnderscore | scripts/generate_cv.py:192 | a hobby title never shows an underscore |
| Tailoring.ScoredExperiences | scripts/cv_generator.py:162 | each experience is paired with the score of its `score_experience` text |
| Tailoring.ScoredProjects | scripts/cv_generator.py:162 | each project is paired with the score of its `score_project` text |
| Tailoring.ScoredPublications | scripts/tailored_cv_generator.py:136 | each publication is paired with the score of its `score_publication` text |
| Tailoring.MissingDescriptionIsEmpty | scripts/tailored_cv_generator.py:117-119 | an experience without a description scores as one with an empty description |
| Tailoring.MissingAbstractIsEmpty | scripts/tailored_cv_generator.py:130-131 | a publication without an abstract scores as one with an empty abstract |
| Tailoring.NothingFoundScoresZero | scripts/cv_generator.py:139-145 | when no keyword was found every text scores 0 |
| Tailoring.NothingFoundKeepsExperienceOrder | scripts/cv_generator.py:160-163 | then the experience ranking is the input order with score 0 |
| Tailoring.NothingFoundKeepsProjectOrder | scripts/cv_generator.py:160-163 | then the project ranking is the input order with score 0 |
| Tailoring.RankExperiencesSpec | scripts/cv_generator.py:160-163 | the experience ranking is a permutation of the scored entries, non-increasing, stable per score |
| Tailoring.RankProjectsSpec | scripts/tailored_cv_generator.py:134-137 | the project ranking is a permutation of the scored entries, non-increasing, stable per score |
| CvGenerator.Generator.constructor | scripts/cv_generator.py:68-77 | a new generator holds the data, is untailored, and has no job keywords and an empty counter |
| CvGenerator.Generator.ExtractKeywords | scripts/cv_generator.py:120-132 | returns the found keywords and bumps the counter field once per found keyword, nothing else changed |
| CvGenerator.Generator.CalculateRelevance | scripts/cv_generator.py:134-145 | the unweighted score over the stored job keywords |
| CvGenerator.Generator.ScoreExperience | scripts/cv_generator.py:147-152 | the score of the experience's concatenated fields |
| CvGenerator.Generator.ScoreProject | scripts/cv_generator.py:154-158 | the score of the project's concatenated fields |
| CvGenerator.Generator.Tailor | scripts/cv_generator.py:364-367 | a truthy job description sets tailoring on and stores its keywords; otherwise the state is unchanged |
| CvGenerator.Generator.GenerateLatex | scripts/cv_generator.py:361-379 | the tailoring switch, then the document of the new state |
| CvGenerator.Render | scripts/cv_generator.py:369-377 | header, about, experience, education, projects, skills, hobbies, footer, in that order |
| CvGenerator.BasicMode | scripts/cv_generator.py:227-231 | untailored: experience and projects keep input order and no skill is bolded |
| CvGenerator.TailoredMode | scripts/cv_generator.py:227-229 | tailored: experience and projects are stable descending rankings of the scored entries |
| TailoredCvGenerator.Generator.constructor | scripts/tailored_cv_generator.py:67-72 | a new generator holds the data, no job keywords and an empty counter |
| TailoredCvGenerator.Generator.ExtractKeywords | scripts/tailored_cv_generator.py:84-97 | returns the found keywords and bumps the counter field once per found keyword |
| TailoredCvGenerator.Generator.CalculateRelevance | scripts/tailored_cv_generator.py:99-113 | the weighted score over the stored job keywords, weight 1 without weights |
| TailoredCvGenerator.Generator.ScoreExperience | scripts/tailored_cv_generator.py:115-120 | the score of the experience's concatenated fields |
| TailoredCvGenerator.Generator.ScoreProject | scripts/tailored_cv_generator.py:122-126 | the score of the project's text |
| TailoredCvGenerator.Generator.ScorePublication | scripts/tailored_cv_generator.py:128-132 | the score of the publication's title, venue and abstract |
| TailoredCvGenerator.Generator.StoreKeywords | scripts/tailored_cv_generator.py:380 | the job keywords become those of the description and the counter is bumped |
| TailoredCvGenerator.Generator.GenerateTailoredCv | scripts/tailored_cv_generator.py:374-393 | stores the keywords, then returns the tailored document of the new state |
| TailoredCvGenerator.Render | scripts/tailored_cv_generator.py:383-391 | the sections concatenated in the fixed order |
| TailoredCvGenerator.ExperienceShownSpec | scripts/tailored_cv_generator.py:229-232 | the shown experience is a prefix of the ranking, of length `min(n, max_items)` for a positive limit, all of it for a falsy one, scores never increasing |
| TailoredCvGenerator.ProjectsShownSpec | scripts/tailored_cv_generator.py:290-293 | the same for projects |
| TailoredCvGenerator.PrefixNonIncreasing | scripts/tailored_cv_generator.py:231-232 | a prefix of a non-increasing ranking is non-increasing |
| CvLatexGenerator.GenerateLatex | generate_cv.py:197-209 | header, about, experience, education, projects, skills, hobbies, footer, in that order |
| CvLatexGenerator.SkillsPlain | generate_cv.py:170-180 | every skill is only escaped, none is bolded |
| CvLatexGenerator.ExperienceInOrder | generate_cv.py:103-120 | one itemize entry per experience, appended in the data file's order |
| CvLatexGenerator.EducationEntriesAreLines | generate_cv.py:122-154 | each education entry is one line, every inner `\\n` being a backslash and an `n` |
| ConfigurableCvGenerator.MergeConfig | Python/cv_generator_configurable.py:64-65 | the merged keys are the default and user keys; a user key replaces the default value wholesale; other defaults stay |
| ConfigurableCvGenerator.UpdateFromDict | Python/cv_generator_configurable.py:64-65 | `update` with a dict, one key at a time: the keys are the old and the user keys, a user key takes the user value, the others keep theirs |
| ConfigurableCvGenerator.UpdateFromPairs | Python/cv_generator_configurable.py:65 | `update` with a non-dict iterable: the pair loop gives the pair-by-pair update, or the first element's error |
| ConfigurableCvGenerator.UpdatePairsErrors | Python/cv_generator_configurable.py:65 | a pair update succeeds exactly when every element is a pair, and otherwise raises the error of the first element that is not |
| ConfigurableCvGenerator.UpdatePairsValues | Python/cv_generator_configurable.py:65 | after a pair update the keys are the old ones plus the keys the pairs set; an unset key keeps its value; a key takes the value of the last pair setting it |
| ConfigurableCvGenerator.UpdateSpec | Python/cv_generator_configurable.py:62-65 | a dict merges; `[]` and `""` keep the defaults; a non-empty string raises ValueError; a number, boolean or null raises TypeError |
| ConfigurableCvGenerator.PairListSetsKeys | Python/cv_generator_configurable.py:65 | a file holding `[[key, value]]` sets that one key and keeps the rest |
| ConfigurableCvGenerator.LoadConfig | Python/cv_generator_configurable.py:30-71 | a missing file gives and saves the defaults; an unparsable file raises the decode error; any other file updates a copy of the defaults as `dict.update` does (a dict merged key by key, a list or string read as pairs), and the error that update raises propagates |
| ConfigurableCvGenerator.Limit | Python/cv_generator_configurable.py:237-239 | a falsy limit means no limit, and a limit in force is never 0 |
| ConfigurableCvGenerator.ShortAbstract | Python/cv_generator_configurable.py:273 | an abstract over 200 characters becomes its first 200 and "...", a shorter one is kept |
| ConfigurableCvGenerator.RenderPublications | Python/cv_generator_configurable.py:267-276 | the loop yields one `\cvitem` per publication, with the abstract only when included and present |
| ConfigurableCvGenerator.RenderActivities | Python/cv_generator_configurable.py:299-308 | the loop yields one `\cvitem` per activity |
| ConfigurableCvGenerator.DefaultFlags | Python/cv_generator_configurable.py:33-42 | the defaults enable every section except publications and activities |
| ConfigurableCvGenerator.DefaultSettingsSpec | Python/cv_generator_configurable.py:43-51 | the defaults show five publications without abstracts and leave other limits and filters unset |
| ConfigurableCvGenerator.DefaultHeader | Python/cv_generator_configurable.py:52-57 | the default `latex_settings` give the fixed preamble |
| ConfigurableCvGenerator.UserSectionsReplaceDefaults | Python/cv_generator_configurable.py:64-65 | a user `cv_sections` replaces the defaults, so a section it omits raises KeyError |
| ConfigurableCvGenerator.ErrorPersists | Python/cv_generator_configurable.py:345-377 | once a lookup raised, the document is that error |
| ConfigurableCvGenerator.MissingAboutRaises | Python/cv_generator_configurable.py:351 | a user `cv_sections` without "about" makes `generate_latex` raise KeyError("about") |
| ConfigurableCvGenerator.SkillsOnlyConfigRaises | Python/cv_generator_configurable.py:351 | a configuration of only `{"cv_sections": {"skills": false}}` raises KeyError("about") |
| ConfigurableCvGenerator.HeaderReadsLatexSettings | Python/cv_generator_configurable.py:111-116 | the header depends on the configuration only through `latex_settings` |
| ConfigurableCvGenerator.SectionGuard | Python/cv_generator_configurable.py:147-148 | a section whose flag is false renders "", a missing flag raises |
| ConfigurableCvGenerator.ThroughStep | Python/cv_generator_configurable.py:351-352 | a set flag appends the section, a clear one skips it |
| ConfigurableCvGenerator.DocumentOrder | Python/cv_generator_configurable.py:345-377 | the document is the header, the enabled sections in the fixed order, then the footer |
| ConfigurableCvGenerator.AllSectionsOff | Python/cv_generator_configurable.py:345-377 | with every section off the document is header and footer |
| ConfigurableCvGenerator.ProjectsShownSpec | Python/cv_generator_configurable.py:229-239 | the projects shown are an ordered subsequence, no longer than a positive limit, each with the filtered status when the filter is truthy, all of them without filter and limit |
| ConfigurableCvGenerator.ActivitiesShownSpec | Python/cv_generator_configurable.py:287-297 | the same pipeline over the activity type; an absent list shows nothing |
| ConfigurableCvGenerator.PublicationsShownSpec | Python/cv_generator_configurable.py:258-263 | a prefix of the list (empty when absent), `min(n, limit)` long for a positive limit |
| ConfigurableCvGenerator.LocationPartSpec | Python/cv_generator_configurable.py:302-308 | ", location" appears exactly when the location is non-empty |
| ConfigurableCvGenerator.Generator.constructor | Python/cv_generator_configurable.py:13-18 | the generator holds the data and the loaded configuration |
| ConfigurableCvGenerator.Generator.GenerateHeader | Python/cv_generator_configurable.py:108-143 | the header from `latex_settings`, or the lookup error |
| ConfigurableCvGenerator.Generator.GenerateAboutSection | Python/cv_generator_configurable.py:145-155 | the about section when enabled, "" when disabled, or the lookup error |
| ConfigurableCvGenerator.Generator.GenerateExperienceSection | Python/cv_generator_configurable.py:157-183 | the limited experience section when enabled |
| ConfigurableCvGenerator.Generator.GenerateEducationSection | Python/cv_generator_configurable.py:185-220 | the education section when enabled |
| ConfigurableCvGenerator.Generator.GenerateProjectsSection | Python/cv_generator_configurable.py:222-249 | the filtered and limited projects section when enabled |
| ConfigurableCvGenerator.Generator.GeneratePublicationsSection | Python/cv_generator_configurable.py:251-278 | the limited publications section when enabled |
| ConfigurableCvGenerator.Generator.GenerateActivitiesSection | Python/cv_generator_configurable.py:280-310 | the filtered and limited activities section when enabled |
| ConfigurableCvGenerator.Generator.GenerateSkillsSection | Python/cv_generator_configurable.py:312-325 | the escaped skill lists when enabled |
| ConfigurableCvGenerator.Generator.GenerateHobbiesSection | Python/cv_generator_configurable.py:327-339 | the hobbies section when enabled |
| ConfigurableCvGenerator.Generator.GenerateSection | Python/cv_generator_configurable.py:351-373 | the generator method called for a section name gives that section's part of the document |
| ConfigurableCvGenerator.Generator.AddSection | Python/cv_generator_configurable.py:351-373 | one flag-guarded statement of `generate_latex` extends the prefix by one section |
| ConfigurableCvGenerator.Generator.GenerateLatex | Python/cv_generator_configurable.py:345-377 | the document of the configuration, or the first error raised |
| ActivitiesExtractor.StripTagsSpec | Python/activities_extractor.py:47 | removing `<[^>]+>` keeps the other characters in order and leaves no tag |
| ActivitiesExtractor.StripTagsNoTag | Python/activities_extractor.py:47 | text without tags is unchanged |
| ActivitiesExtractor.StripTagsIdempotent | Python/activities_extractor.py:47 | removing tags twice is removing them once |
| ActivitiesExtractor.CleanDescriptionSpec | Python/activities_extractor.py:47 | the cleaned description has no tag and no surrounding whitespace |
| ActivitiesExtractor.ActivityTypeLabels | Python/activities_extractor.py:72-93 | the type is one of the eight labels, never "symposium" |
| ActivitiesExtractor.ConferenceFirst | Python/activities_extractor.py:76-77 | "conference" or "symposium" in any case decides "conference" before every other rule |
| ActivitiesExtractor.WorkshopBeforeSchools | Python/activities_extractor.py:78-81 | without those, "workshop" wins over the school rules |
| ActivitiesExtractor.NoKeywordIsConference | Python/activities_extractor.py:92-93 | a description with no keyword defaults to "conference" |
| ActivitiesExtractor.ExtractLocationSpec | Python/activities_extractor.py:107-117 | the location is the cleaned capture of the first pattern whose capture has at most 50 characters, "" when none |
| ActivitiesExtractor.ExtractEventNameSpec | Python/activities_extractor.py:130-135 | the event is the stripped capture of the first pattern whose length is strictly between 10 and 100, else the fallback |
| ActivitiesExtractor.EventFallbackSpec | Python/activities_extractor.py:137-142 | the fallback is the first eight words and "..." with more than three words, else the first 50 characters and "..." when longer |
| ActivitiesExtractor.ParseActivity | Python/activities_extractor.py:43-66 | `parse_activity` builds the record, inserting the location key only when non-empty |
| ActivitiesExtractor.ActivityDictSpec | Python/activities_extractor.py:56-64 | each part sits under its own key; the keys are date, event, type and description, plus location exactly when it is non-empty |
| ActivitiesExtractor.ActivityRecordKeys | Python/activities_extractor.py:56-64 | date, event, type and description are always present; location exactly when non-empty; no other key |
| ActivitiesExtractor.ActivityRecordValues | Python/activities_extractor.py:56-61 | the date is kept, the description is the cleaned text, the type one of the eight labels |
| ActivitiesExtractor.ExtractActivities | Python/activities_extractor.py:29-32 | one record per item match, in order, from the stripped date and description |
| ActivitiesExtractor.MergeWithExistingData | Python/activities_extractor.py:188-217 | the `activities` key is replaced wholesale, other keys untouched, nothing written for an empty extraction |
| PublicationsExtractor.MatchAfterSpec | Python/extract_publications.py:70 | a match of the rest of the pattern has a non-empty one-line venue and a comma, whitespace and four `\d` characters (decimal digits of any script) after it, at the last such comma |
| PublicationsExtractor.SearchFromSpec | Python/extract_publications.py:70 | a match that `re.search` returns follows a label and is the greedy match of the rest of the pattern |
| PublicationsExtractor.SearchFromLeftmost | Python/extract_publications.py:70 | `re.search` returns the rest of the pattern at the leftmost label where it matches (every earlier label fails), and returns nothing exactly when no label is followed by a match |
| PublicationsExtractor.LastTailNone | Python/extract_publications.py:70 | the greedy `(.+),` backs off to no comma exactly when no comma in the range is followed by whitespace and four `\d` characters |
| PublicationsExtractor.MatchAfterNoneShape | Python/extract_publications.py:70 | after a label the pattern fails exactly when `.+` finds no comma to back off to and the backed-off `\s*` gives no match |
| PublicationsExtractor.MatchAfterNone | Python/extract_publications.py:70 | after a label the pattern fails exactly when no comma on the line is followed by whitespace and a year, and the one-character venue left by backing off `\s*` fails too |
| PublicationsExtractor.VenueYearMatched | Python/extract_publications.py:69-73 | when the pattern matches the year is four `\d` characters (decimal digits of any script) and the venue the stripped text up to the last comma followed by a year |
| PublicationsExtractor.FullwidthYear | Python/extract_publications.py:69-73 | a year written in fullwidth digits is captured by the pattern: `Published in:A,２０２０,x` gives venue `A` and year `２０２０`, not the comma-split fallback |
| PublicationsExtractor.SplitLastComma | Python/extract_publications.py:76-78 | rejoining all but the last comma-split part cuts the text at its last comma |
| PublicationsExtractor.SplitNoComma | Python/extract_publications.py:76 | without a comma the split has one part |
| PublicationsExtractor.FallbackSpec | Python/extract_publications.py:74-82 | the fallback cuts at the last comma (venue before, year after), or gives the whole text and year "Unknown" |
| PublicationsExtractor.AbstractSpec | Python/extract_publications.py:84-90 | only a paragraph starting with "Abstract:" gives an abstract, with every occurrence of the label removed |
| PublicationsExtractor.PublicationTypeLabels | Python/extract_publications.py:116-130 | the type is thesis, conference or journal |
| PublicationsExtractor.ThesisTitleWins | Python/extract_publications.py:121-122 | a title naming a thesis or dissertation gives "thesis" whatever the venue |
| PublicationsExtractor.ConferenceVenueFirst | Python/extract_publications.py:123-124 | otherwise "proceedings" in the venue gives "conference", whatever journal keyword it also holds |
| PublicationsExtractor.JournalVenue | Python/extract_publications.py:125-126 | a journal keyword without a conference keyword gives "journal" |
| PublicationsExtractor.PublicationRecordKeys | Python/extract_publications.py:96-108 | title, authors, venue, year and type are always present; doi and abstract exactly when non-empty |
| PublicationsExtractor.PublicationRecordValues | Python/extract_publications.py:96-102 | the authors are the single fixed author and the fields hold the parsed values |
| PublicationsExtractor.PublicationRecordOptional | Python/extract_publications.py:104-108 | present optional keys hold the DOI and abstract |
| PublicationsExtractor.PublicationOfSpec | Python/extract_publications.py:45-65 | a card gives a record exactly when it has a body, a title and a subtitle |
| PublicationsExtractor.ParsePublicationItem | Python/extract_publications.py:42-110 | the lookups then the record with its optional keys |
| PublicationsExtractor.PublicationsSpec | Python/extract_publications.py:28-31 | every card gives a record, in order, exactly when each is complete; each kept record is some card's |
| PublicationsExtractor.ExtractPublications | Python/extract_publications.py:26-33 | the loop keeps the records of the cards in order |
| PublicationsExtractor.MergeWithExistingData | Python/extract_publications.py:157-186 | the `publications` key is replaced wholesale and nothing is written for an empty extraction |
| PublicationsFetcher.TitleHtmlSpec | Python/fetch_publications.py:110 | the title is a link to the url exactly when the url is non-empty |
| PublicationsFetcher.AuthorsTextSpec | Python/fetch_publications.py:107 | string authors appear verbatim; a list is joined with ", " |
| PublicationsFetcher.CardSplit | Python/fetch_publications.py:112-130 | a card's lines are the template's; the abstract line appears exactly when the abstract is non-empty, the citations line exactly when citations > 0 |
| PublicationsFetcher.Cards | Python/fetch_publications.py:105-132 | one card per publication |
| PublicationsFetcher.BuildCard | Python/fetch_publications.py:107-130 | the loop body builds exactly the card of the publication |
| PublicationsFetcher.GeneratePublicationsHtml | Python/fetch_publications.py:101-134 | the loop's cards joined with line breaks |
| PublicationsFetcher.PublicationsHtmlJoin | Python/fetch_publications.py:134 | the page fragment is the lines of all cards joined with line breaks |
| PublicationsFetcher.PublicationsHtmlLines | Python/fetch_publications.py:101-134 | the fragment splits into the first card's lines, then the second's, and so on; no publications give "" |
| PublicationsFetcher.YearKeyRoundTrip | Python/fetch_publications.py:83 | `int(str(n)) == n`, and an empty year counts as 0 |
| PublicationsFetcher.YearKeyRejects | Python/fetch_publications.py:83 | a year holding a character other than whitespace, sign or digit raises ValueError |
| PublicationsFetcher.KeyedSpec | Python/fetch_publications.py:83 | the keys exist exactly when every year parses, paired with their records; otherwise the first bad year's error |
| PublicationsFetcher.SortByYearError | Python/fetch_publications.py:83 | the sort fails exactly when some year is not a number |
| PublicationsFetcher.SortedKeys | Python/fetch_publications.py:83 | each sorted entry carries its record's key |
| PublicationsFetcher.SortByYearSpec | Python/fetch_publications.py:83 | the sorted records are a permutation with non-increasing years: newest first |
| PublicationsFetcher.SortByYearStable | Python/fetch_publications.py:83 | records with equal keys keep their fetch order |
| PublicationsFetcher.FirstCloseSpec | Python/fetch_publications.py:148 | the lazy group ends at the first `</ul>` |
| PublicationsFetcher.MatchEndSpec | Python/fetch_publications.py:148 | a match is the opening tag, then text holding no `</ul>`, then the first `</ul>` after it; an opening tag with no `</ul>` after it is no match |
| PublicationsFetcher.NextMatchSpec | Python/fetch_publications.py:148-152 | `re.sub` takes the leftmost match from its scan position, and reports none only when no position matches |
| PublicationsFetcher.SubstituteNone | Python/fetch_publications.py:148-152 | text with no publication list is unchanged |
| PublicationsFetcher.SubstituteFirst | Python/fetch_publications.py:148-152 | at a match the opening tag is kept, the body up to the first `</ul>` replaced, the `</ul>` kept, and the rest processed the same way |
| PublicationsFetcher.UpdatePublicationsHtml | Python/fetch_publications.py:137-152 | the page with every list body replaced by the new cards between a line break and the closing indentation |
| Regeneration.FileHash | auto_update.py:22-28 | a missing file hashes to "", a present one to its non-empty digest |
| Regeneration.Polls | auto_update.py:30-36 | one answer per poll |
| Regeneration.RepeatPollQuiet | auto_update.py:30-36 | after a poll the stored hash is the current one, and an immediate repeat reports no change |
| Regeneration.PollsSpec | auto_update.py:30-36 | the k-th poll reports a change exactly when the hash differs from the previous poll's (the initial one for the first) |
| Regeneration.DeletionReportedOnce | auto_update.py:22-36 | deleting a present file is reported exactly once |
| Regeneration.RegenerateSpec | auto_update.py:72-89 | both scripts run, HTML first; the PDF is compiled exactly when the LaTeX script succeeded, last; full success exactly when both scripts succeeded |
| Regeneration.RegenerateIgnoresPdf | auto_update.py:78-89 | the PDF outcome affects only the recorded PDF result |
| AutoUpdater.AutoUpdater.constructor | auto_update.py:16-20 | the stored hash starts as the data file's hash and the update time as the construction time |
| AutoUpdater.AutoUpdater.FileChanged | auto_update.py:30-36 | reports a change exactly when the hash differs from the stored one, and stores the current hash |
| AutoUpdater.AutoUpdater.UpdateFiles | auto_update.py:66-91 | the regeneration outcome, the update time recorded, the stored hash untouched |
| AutoUpdater.AutoUpdater.ForceUpdate | auto_update.py:136-139 | a regeneration whatever the hashes, leaving the stored hash alone |
| ConfigurableAutoUpdater.EchoedSpec | auto_update_configurable.py:60-67 | exactly the stripped output lines holding one of the five markers are echoed, in order; a failed run echoes nothing |
| ConfigurableAutoUpdater.ChangedFilesSpec | auto_update_configurable.py:32-48 | the data file is listed exactly when its hash changed, the config file exactly when its hash changed, data first |
| ConfigurableAutoUpdater.RepeatCheckQuiet | auto_update_configurable.py:37-46 | an immediate repeat lists no file |
| ConfigurableAutoUpdater.ConfigurableAutoUpdater.constructor | auto_update_configurable.py:16-22 | both stored hashes start as the files' hashes |
| ConfigurableAutoUpdater.ConfigurableAutoUpdater.FilesChanged | auto_update_configurable.py:32-48 | the changed files and whether there are any; both stored hashes become the current ones |
| ConfigurableAutoUpdater.ConfigurableAutoUpdater.RunScript | auto_update_configurable.py:50-80 | success exactly for return code 0; the marked output lines, in order |
| ConfigurableAutoUpdater.ConfigurableAutoUpdater.UpdateFiles | auto_update_configurable.py:82-108 | the changed files joined by ", ", both scripts' echoed lines, the regeneration outcome, the time recorded |
| ConfigurableAutoUpdater.ConfigurableAutoUpdater.ForceUpdate | auto_update_configurable.py:183-186 | names both files as changed and regenerates, hashes untouched |

## Left out

- File access, `json.load`/`json.dump`, `subprocess.run`, `compile_pdf`, the `watch` loops with `time.sleep`, `input()` menus, `main()` functions and every `print` are not modelled; their results are parameters (file states, script runs, `now`).
- MD5 is not modelled: a present file is its 32-character digest.
- The lines that `run_script` and `update_files` print are left out, except the marker lines that the configurable updater echoes and its list of changed files.
- `generate_html.py`, `setup.py` and `Python/update_publications_manual.py` are not part of this model: they wrap Jinja2 templates, environment probing, and a JSON load followed by calls into the publication fetcher.
- `show_current_config`, `check_dependencies`, `generate_matching_report`, `save_*` and `interactive_menu` are not modelled: they print or write files.
- The scholarly network fetch, with its fallback records, is not modelled; its records are the `FetchedPub` values given to the sort and the renderer.
- BeautifulSoup lookups are not modelled: a publication card is given as its optional body, title and subtitle elements and their texts.
- The location and event-name regular expressions are oracles: each pattern's optional capture is an input, and only the cleaning, the length filters and the fallback around them are modelled.
- The activity item pattern of `extract_from_html` is not modelled; its matches are the input of `ExtractActivities`.
- Floats are not modelled: relevance scores are integer match counts times integer weights. `{score:.2f}` of an integral score is written as the number followed by `.00`.
- `str.lower`, `str.title` and `\w` cover ASCII letters only; whitespace (`\s`, `str.strip`, `str.split`) is Python's full set, and the `\d` of the venue/year pattern is every decimal digit (Unicode category Nd) of Unicode 15, the database of Python 3.12 and 3.13; later Unicode versions add digit blocks the model does not list.
- The non-`str` branch of `escape_latex` (`str(text)`) is not modelled; every escaped value is a string.
- A KeyError on a required data key (`exp['position']` and the like) is not modelled: those keys are plain record fields. Keys read with `.get` or looked up with `in` are options.
- `Counter.most_common` ties: equal counts are taken in insertion order (the stable sort). CPython gives the same order, but nothing here proves it.
- The contact block of `generate_header` is written as given: its links are not escaped.
- `Json.PyStr`: `str()` of a list or dict inside an f-string is written as "" rather than Python's `repr`; JSON numbers are integers; a data file whose top level is an array fails the key assignment, as in Python.
- The `except Exception` branches of `parse_activity` and `parse_publication_item` are not modelled: no modelled step raises there.
- ConfigurableCvGenerator.LoadConfig: a pair whose key is a number, boolean or null is stored by Python under that non-string key, and a two-key object read as a pair sets its first key (in file order) to its second; the model's configuration has string keys only and its JSON objects keep no key order, so both leave the configuration unchanged.
- PublicationsFetcher.ParseInt: `int()` also accepts underscores between digits and non-ASCII digits; the model accepts neither.
- PublicationsFetcher.UpdatePublicationsHtml: the generated HTML is inserted as literal text, whereas `re.sub` would interpret backslash escapes in the replacement string (group references such as `\1`, and `\n`).
- PublicationsFetcher.SortByYear: `list.sort` sorts in place; the model returns the sorted sequence as a value.
- Regeneration.Regenerate: `compile_pdf` runs `pdflatex` twice with a timeout; its outcome is one boolean input.
