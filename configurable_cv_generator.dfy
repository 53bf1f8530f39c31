/** `ConfigurableCVGenerator` of Python/cv_generator_configurable.py: the CV whose sections,
    limits, filters and preamble come from a JSON configuration merged over built-in defaults.
    It escapes with the ten-rule table and writes `\\n` (backslash, letter n) after education
    parts, project entries, publications, activities and hobbies.

    Configuration lookups are Python subscripts, so a configuration that lacks a key, or holds a
    non-dict where a dict is read, raises; every renderer returns a `Result` carrying that error. */
module ConfigurableCvGenerator {
  import opened Wrappers
  import opened Text
  import opened Seqs
  import opened LatexFormat
  import opened Profile
  import opened Relevance
  import opened Sections
  import opened Json

  type Config = map<string, Json>

  // ---------------------------------------------------------------- configuration

  const DefaultSections: map<string, Json> := map[
    "about" := JBool(true), "experience" := JBool(true), "education" := JBool(true),
    "projects" := JBool(true), "publications" := JBool(false), "activities" := JBool(false),
    "skills" := JBool(true), "hobbies" := JBool(true)]

  const DefaultSettings: map<string, Json> := map[
    "max_projects" := JNull, "max_experience" := JNull, "max_publications" := JNum(5),
    "max_activities" := JNull, "include_abstracts" := JBool(false),
    "projects_status_filter" := JNull, "activities_type_filter" := JNull]

  const DefaultLatexSettings: map<string, Json> := map[
    "document_class" := JStr("moderncv"), "style" := JStr("classic"),
    "color" := JStr("blue"), "geometry" := JStr("scale=0.8")]

  /** `default_config` of `load_config`. */
  const DefaultConfig: Config := map[
    "cv_sections" := JObj(DefaultSections),
    "cv_settings" := JObj(DefaultSettings),
    "latex_settings" := JObj(DefaultLatexSettings)]

  /** What `load_config` returns, and the defaults it saved when it had to create the file. */
  datatype Loaded = Loaded(config: Config, saved: Option<Config>)

  /** `config = default_config.copy(); config.update(user_config)`: a shallow merge in which each
      top-level key of the user file replaces the default value wholesale. */
  function MergeConfig(user: Config): (c: Config)
    ensures c.Keys == DefaultConfig.Keys + user.Keys
    ensures forall k :: k in user ==> c[k] == user[k]
    ensures forall k :: k in DefaultConfig && k !in user ==> c[k] == DefaultConfig[k]
  {
    DefaultConfig + user
  }

  /** `config.update(user)` for a dict `user`, one key at a time: every user key is set to its
      user value, and the other keys keep theirs. */
  method UpdateFromDict(config0: Config, user: Config) returns (config: Config)
    ensures config.Keys == config0.Keys + user.Keys
    ensures forall k :: k in config ==> config[k] == if k in user then user[k] else config0[k]
  {
    config := config0;
    var pending := user.Keys;
    while pending != {}
      invariant pending <= user.Keys
      invariant config.Keys == config0.Keys + (user.Keys - pending)
      invariant forall k :: k in config ==>
        config[k] == if k in user && k !in pending then user[k] else config0[k]
      decreases pending
    {
      var k :| k in pending;
      config := config[k := user[k]];
      pending := pending - {k};
    }
  }

  /** How `dict.update` reads one element of an argument that is not a mapping: as a key/value
      pair. The element must be iterable with exactly two items (ValueError otherwise, TypeError when
      it is not iterable at all), and its key hashable (TypeError for a list or dict key). `Some`
      is a string-keyed entry; `None` is an entry the configuration lookups never see: a number,
      boolean or null key, or a two-key object, whose first key (in file order, which `Json` does
      not keep) becomes the key. */
  function PairOf(e: Json): Result<Option<(string, Json)>, PyError> {
    match e
    case JStr(s) => if |s| == 2 then Ok(Some((s[..1], JStr(s[1..])))) else Err(ValueError)
    case JArr(xs) =>
      if |xs| != 2 then Err(ValueError)
      else (match xs[0]
        case JStr(k) => Ok(Some((k, xs[1])))
        case JArr(_) => Err(TypeError)
        case JObj(_) => Err(TypeError)
        case _ => Ok(None))
    case JObj(m) => if |m| == 2 then Ok(None) else Err(ValueError)
    case _ => Err(TypeError)
  }

  /** Whether the element sets the string key `k`. */
  predicate Sets(e: Json, k: string) {
    PairOf(e).Ok? && PairOf(e).value.Some? && PairOf(e).value.value.0 == k
  }

  /** `dict.update` over a sequence of pairs: each pair in turn, stopping at the first element
      that is not one. */
  function UpdatePairs(config: Config, items: seq<Json>): Result<Config, PyError>
    decreases |items|
  {
    if items == [] then Ok(config)
    else match PairOf(items[0])
      case Err(e) => Err(e)
      case Ok(None) => UpdatePairs(config, items[1..])
      case Ok(Some(p)) => UpdatePairs(config[p.0 := p.1], items[1..])
  }

  /** `config.update(other)` for any JSON value: a dict is merged key by key; a list, or a string
      (whose items are its one-character strings), is read as a sequence of pairs; any other value
      is not iterable. */
  function Update(config: Config, other: Json): Result<Config, PyError> {
    match other
    case JObj(m) => Ok(config + m)
    case JArr(items) => UpdatePairs(config, items)
    case JStr(s) => UpdatePairs(config, seq(|s|, i requires 0 <= i < |s| => JStr([s[i]])))
    case _ => Err(TypeError)
  }

  /** The pair loop of `dict.update`. */
  method UpdateFromPairs(config0: Config, items: seq<Json>) returns (r: Result<Config, PyError>)
    ensures r == UpdatePairs(config0, items)
  {
    var config := config0;
    var i := 0;
    while i < |items|
      invariant 0 <= i <= |items|
      invariant UpdatePairs(config, items[i..]) == UpdatePairs(config0, items)
    {
      assert items[i..][1..] == items[i + 1..];
      var p := PairOf(items[i]);
      if p.Err? {
        return Err(p.error);
      }
      if p.value.Some? {
        config := config[p.value.value.0 := p.value.value.1];
      }
      i := i + 1;
    }
    return Ok(config);
  }

  /** The update succeeds exactly when every element is a pair, and otherwise raises the error
      of the first element that is not. */
  lemma {:induction false} UpdatePairsErrors(config: Config, items: seq<Json>)
    ensures UpdatePairs(config, items).Ok? <==> forall i :: 0 <= i < |items| ==> PairOf(items[i]).Ok?
    ensures UpdatePairs(config, items).Err? ==>
      exists i :: 0 <= i < |items| && PairOf(items[i]) == Err(UpdatePairs(config, items).error)
        && forall j :: 0 <= j < i ==> PairOf(items[j]).Ok?
    decreases |items|
  {
    if items != [] && PairOf(items[0]).Ok? {
      var next := if PairOf(items[0]).value.Some? then config[PairOf(items[0]).value.value.0 := PairOf(items[0]).value.value.1] else config;
      assert UpdatePairs(config, items) == UpdatePairs(next, items[1..]);
      UpdatePairsErrors(next, items[1..]);
      assert forall i :: 1 <= i < |items| ==> items[1..][i - 1] == items[i];
      if UpdatePairs(next, items[1..]).Err? {
        var i :| 0 <= i < |items[1..]| && PairOf(items[1..][i]) == Err(UpdatePairs(next, items[1..]).error)
          && forall j :: 0 <= j < i ==> PairOf(items[1..][j]).Ok?;
        assert PairOf(items[i + 1]) == Err(UpdatePairs(config, items).error);
        assert forall j :: 0 <= j < i + 1 ==> PairOf(items[j]).Ok? by {
          forall j | 0 <= j < i + 1 ensures PairOf(items[j]).Ok? {
            if j > 0 {
              assert items[j] == items[1..][j - 1];
            }
          }
        }
      }
    }
  }

  /** After a successful pair update the keys are the old ones and the ones the pairs set; a key
      no pair sets keeps its value, and a key takes the value of the last pair that sets it. */
  lemma {:induction false} UpdatePairsValues(config: Config, items: seq<Json>)
    requires UpdatePairs(config, items).Ok?
    ensures var c := UpdatePairs(config, items).value;
      (forall k :: k in c <==> k in config || exists i :: 0 <= i < |items| && Sets(items[i], k))
      && (forall k :: k in config && (forall i :: 0 <= i < |items| ==> !Sets(items[i], k)) ==> c[k] == config[k])
      && (forall i, k :: 0 <= i < |items| && Sets(items[i], k) && (forall j :: i < j < |items| ==> !Sets(items[j], k)) ==>
            k in c && c[k] == PairOf(items[i]).value.value.1)
    decreases |items|
  {
    if items != [] {
      var p := PairOf(items[0]);
      var rest := items[1..];
      var next := if p.value.Some? then config[p.value.value.0 := p.value.value.1] else config;
      assert UpdatePairs(config, items) == UpdatePairs(next, rest);
      UpdatePairsValues(next, rest);
      var c := UpdatePairs(config, items).value;
      assert forall i :: 1 <= i < |items| ==> rest[i - 1] == items[i];
      forall k ensures k in c <==> k in config || exists i :: 0 <= i < |items| && Sets(items[i], k) {
        if exists i :: 0 <= i < |rest| && Sets(rest[i], k) {
          var i :| 0 <= i < |rest| && Sets(rest[i], k);
          assert Sets(items[i + 1], k);
        }
        if exists i :: 0 <= i < |items| && Sets(items[i], k) {
          var i :| 0 <= i < |items| && Sets(items[i], k);
          if i > 0 {
            assert Sets(rest[i - 1], k);
          }
        }
      }
      forall k | k in config && (forall i :: 0 <= i < |items| ==> !Sets(items[i], k)) ensures c[k] == config[k] {
        assert !Sets(items[0], k);
        forall i | 0 <= i < |rest| ensures !Sets(rest[i], k) {
          assert rest[i] == items[i + 1];
        }
      }
      forall i, k | 0 <= i < |items| && Sets(items[i], k) && (forall j :: i < j < |items| ==> !Sets(items[j], k))
        ensures k in c && c[k] == PairOf(items[i]).value.value.1
      {
        forall j | i <= j < |rest| ensures !Sets(rest[j], k) {
          assert rest[j] == items[j + 1];
        }
        if i > 0 {
          assert rest[i - 1] == items[i];
        }
      }
    }
  }

  /** `config.update(value)` for each kind of JSON value: a dict merges; an empty list or string
      changes nothing; a non-empty string raises ValueError, its items being one character long;
      a number, boolean or null is not iterable and raises TypeError. */
  lemma {:induction false} UpdateSpec(config: Config, other: Json)
    ensures other.JObj? ==> Update(config, other) == Ok(config + other.fields)
    ensures other == JArr([]) || other == JStr("") ==> Update(config, other) == Ok(config)
    ensures other.JStr? && other.s != "" ==> Update(config, other) == Err(ValueError)
    ensures other.JNull? || other.JBool? || other.JNum? ==> Update(config, other) == Err(TypeError)
  {
    if other.JStr? && other.s != "" {
      var s := other.s;
      var items := seq(|s|, i requires 0 <= i < |s| => JStr([s[i]]));
      assert items[0] == JStr([s[0]]);
      assert PairOf(items[0]) == Err(ValueError);
    }
  }

  /** A list of string-keyed pairs sets each key to the value of its last pair and leaves the
      other keys as they were; `[["about", false]]` switches the about flag key of the top level. */
  lemma {:induction false} PairListSetsKeys(config: Config, key: string, v: Json)
    ensures Update(config, JArr([JArr([JStr(key), v])])) == Ok(config[key := v])
  {
    var items := [JArr([JStr(key), v])];
    assert PairOf(items[0]) == Ok(Some((key, v)));
    assert UpdatePairs(config, items) == UpdatePairs(config[key := v], items[1..]);
    assert items[1..] == [];
  }

  /** `load_config`: a missing file yields the defaults and writes them out; an unparsable file
      raises (the decode error is not caught); otherwise the loaded value updates a copy of the
      defaults as `dict.update` does, and an error it raises propagates. */
  method LoadConfig(file: JsonFile) returns (r: Result<Loaded, PyError>)
    ensures file == Missing ==> r == Ok(Loaded(DefaultConfig, Some(DefaultConfig)))
    ensures file == Unparsable ==> r == Err(DecodeError)
    ensures file.Parsed? && file.content.JObj? ==> r == Ok(Loaded(MergeConfig(file.content.fields), None))
    ensures file.Parsed? && Update(DefaultConfig, file.content).Ok? ==>
      r == Ok(Loaded(Update(DefaultConfig, file.content).value, None))
    ensures file.Parsed? && Update(DefaultConfig, file.content).Err? ==>
      r == Err(Update(DefaultConfig, file.content).error)
  {
    match file
    case Missing =>
      r := Ok(Loaded(DefaultConfig, Some(DefaultConfig)));
    case Unparsable =>
      r := Err(DecodeError);
    case Parsed(content) =>
      var updated: Result<Config, PyError>;
      match content {
        case JObj(fields) =>
          var config := UpdateFromDict(DefaultConfig, fields);
          assert config == DefaultConfig + fields;
          updated := Ok(config);
        case JArr(items) =>
          updated := UpdateFromPairs(DefaultConfig, items);
        case JStr(s) =>
          updated := UpdateFromPairs(DefaultConfig, seq(|s|, i requires 0 <= i < |s| => JStr([s[i]])));
        case _ =>
          updated := Err(TypeError);
      }
      if updated.Ok? {
        r := Ok(Loaded(updated.value, None));
      } else {
        r := Err(updated.error);
      }
  }

  /** `self.config['cv_sections'][name]`, as a condition. */
  function SectionEnabled(config: Config, name: string): Result<bool, PyError> {
    var sections :- Subscript(JObj(config), "cv_sections");
    var flag :- Subscript(sections, name);
    Ok(Truthy(flag))
  }

  /** `self.config['cv_settings'][name]`. */
  function Setting(config: Config, name: string): Result<Json, PyError> {
    var settings :- Subscript(JObj(config), "cv_settings");
    Subscript(settings, name)
  }

  /** `if limit: items = items[:limit]`: a falsy limit means no limit, an int slices, `True` is 1,
      and any other truthy value is not a valid slice bound. */
  function Limit(limit: Json): (r: Result<Option<int>, PyError>)
    ensures !Truthy(limit) ==> r == Ok(None)
    ensures r.Ok? && r.value.Some? ==> r.value.value != 0
  {
    if !Truthy(limit) then Ok(None)
    else match limit
      case JNum(n) => Ok(Some(n))
      case JBool(_) => Ok(Some(1))
      case _ => Err(TypeError)
  }

  // ---------------------------------------------------------------- selections

  /** `p.get('status') == status_filter` for a project. */
  function HasStatus(filter: Json): Project -> bool {
    (p: Project) => p.status.Some? && filter == JStr(p.status.value)
  }

  /** `a.get('type') == type_filter` for an activity. */
  function HasType(filter: Json): Activity -> bool {
    (a: Activity) => a.kind.Some? && filter == JStr(a.kind.value)
  }

  /** The projects listed: filtered by status when the filter is truthy, then limited. */
  function ProjectsShown(projects: seq<Project>, filter: Json, limit: Option<int>): seq<Project> {
    ApplyLimit(if Truthy(filter) then Filter(projects, HasStatus(filter)) else projects, limit)
  }

  /** The activities listed (an absent key is an empty list): filtered by type, then limited. */
  function ActivitiesShown(activities: Option<seq<Activity>>, filter: Json, limit: Option<int>): seq<Activity> {
    var all := activities.GetOr([]);
    ApplyLimit(if Truthy(filter) then Filter(all, HasType(filter)) else all, limit)
  }

  /** The publications listed (an absent key is an empty list), limited. */
  function PublicationsShown(publications: Option<seq<Publication>>, limit: Option<int>): seq<Publication> {
    ApplyLimit(publications.GetOr([]), limit)
  }

  // ---------------------------------------------------------------- publications and activities

  /** The abstract as shown: an abstract longer than 200 characters is cut to its first 200
      characters followed by "...". */
  function ShortAbstract(a: string): (r: string)
    ensures |a| <= 200 ==> r == a
    ensures |a| > 200 ==> |r| == 203 && r[..200] == a[..200] && r[200..] == "..."
  {
    if |a| > 200 then a[..200] + "..." else a
  }

  /** One publication `\cvitem`: the year unescaped, the title in italics, the venue, and the
      abstract when abstracts are included and the publication has one. */
  function PublicationEntry(rules: seq<Rule>, includeAbstracts: bool, p: Publication): string {
    if includeAbstracts && p.summary.Some? then
      "\\cvitem{" + p.year + "}{\\textit{" + ApplyRules(rules, p.title) + "}. " + ApplyRules(rules, p.venue)
      + ". \\\\\\textbf{Abstract:} " + ApplyRules(rules, ShortAbstract(p.summary.value)) + "}" + BackslashN
    else
      "\\cvitem{" + p.year + "}{\\textit{" + ApplyRules(rules, p.title) + "}. " + ApplyRules(rules, p.venue)
      + ".}" + BackslashN
  }

  function PublicationsBody(rules: seq<Rule>, includeAbstracts: bool, ps: seq<Publication>): string
    decreases |ps|
  {
    if ps == [] then ""
    else PublicationsBody(rules, includeAbstracts, ps[..|ps| - 1]) + PublicationEntry(rules, includeAbstracts, ps[|ps| - 1])
  }

  function PublicationsSection(rules: seq<Rule>, includeAbstracts: bool, ps: seq<Publication>): string {
    "\\section{Publications}\n" + PublicationsBody(rules, includeAbstracts, ps)
  }

  method RenderPublications(rules: seq<Rule>, includeAbstracts: bool, ps: seq<Publication>) returns (section: string)
    ensures section == PublicationsSection(rules, includeAbstracts, ps)
  {
    var body := "";
    var i := 0;
    while i < |ps|
      invariant 0 <= i <= |ps|
      invariant body == PublicationsBody(rules, includeAbstracts, ps[..i])
    {
      assert ps[..i + 1][..i] == ps[..i];
      body := body + PublicationEntry(rules, includeAbstracts, ps[i]);
      i := i + 1;
    }
    assert ps[..i] == ps;
    section := "\\section{Publications}\n" + body;
  }

  /** The location part of an activity: ", location" when the escaped location is non-empty. */
  function LocationPart(rules: seq<Rule>, a: Activity): string {
    var location := ApplyRules(rules, a.location.GetOr(""));
    if location != "" then ", " + location else ""
  }

  /** One activity `\cvitem`: date, bold event, the location part, and the description. */
  function ActivityEntry(rules: seq<Rule>, a: Activity): string {
    "\\cvitem{" + ApplyRules(rules, a.date) + "}{\\textbf{" + ApplyRules(rules, a.event) + "}"
    + LocationPart(rules, a) + ". " + ApplyRules(rules, a.description.GetOr("")) + "}" + BackslashN
  }

  function ActivitiesBody(rules: seq<Rule>, activities: seq<Activity>): string
    decreases |activities|
  {
    if activities == [] then ""
    else ActivitiesBody(rules, activities[..|activities| - 1]) + ActivityEntry(rules, activities[|activities| - 1])
  }

  function ActivitiesSection(rules: seq<Rule>, activities: seq<Activity>): string {
    "\\section{Activities}\n" + ActivitiesBody(rules, activities)
  }

  method RenderActivities(rules: seq<Rule>, activities: seq<Activity>) returns (section: string)
    ensures section == ActivitiesSection(rules, activities)
  {
    var body := "";
    var i := 0;
    while i < |activities|
      invariant 0 <= i <= |activities|
      invariant body == ActivitiesBody(rules, activities[..i])
    {
      assert activities[..i + 1][..i] == activities[..i];
      body := body + ActivityEntry(rules, activities[i]);
      i := i + 1;
    }
    assert activities[..i] == activities;
    section := "\\section{Activities}\n" + body;
  }

  // ---------------------------------------------------------------- the sections under a configuration

  const EducationLayout: Layout := Layout(BackslashN, BackslashN)

  /** `generate_header`: the preamble from `latex_settings` (each value as `str()` writes it),
      then the personal block. */
  function Header(data: CvData, config: Config): Result<string, PyError> {
    var latex :- Subscript(JObj(config), "latex_settings");
    var documentClass :- Subscript(latex, "document_class");
    var style :- Subscript(latex, "style");
    var color :- Subscript(latex, "color");
    var geometry :- Subscript(latex, "geometry");
    Ok(Preamble(PyStr(documentClass), PyStr(style), PyStr(color), PyStr(geometry)) + PersonalBlock(TenRules, data.personal))
  }

  function AboutPart(data: CvData, config: Config): Result<string, PyError> {
    var on :- SectionEnabled(config, "about");
    Ok(if on then AboutSection(TenRules, data.personal.about) else "")
  }

  function ExperiencePart(data: CvData, config: Config): Result<string, PyError> {
    var on :- SectionEnabled(config, "experience");
    if !on then Ok("")
    else
      var max :- Setting(config, "max_experience");
      var limit :- Limit(max);
      Ok(ExperienceSection(TenRules, false, false, Unscored(ApplyLimit(data.experience, limit))))
  }

  function EducationPart(data: CvData, config: Config): Result<string, PyError> {
    var on :- SectionEnabled(config, "education");
    Ok(if on then EducationSection(TenRules, EducationLayout, data.education) else "")
  }

  function ProjectsPart(data: CvData, config: Config): Result<string, PyError> {
    var on :- SectionEnabled(config, "projects");
    if !on then Ok("")
    else
      var filter :- Setting(config, "projects_status_filter");
      var max :- Setting(config, "max_projects");
      var limit :- Limit(max);
      Ok(ProjectSection(TenRules, BackslashN, BackslashN, false, Unscored(ProjectsShown(data.projects, filter, limit))))
  }

  function PublicationsPart(data: CvData, config: Config): Result<string, PyError> {
    var on :- SectionEnabled(config, "publications");
    if !on then Ok("")
    else
      var max :- Setting(config, "max_publications");
      var limit :- Limit(max);
      var withAbstracts :- Setting(config, "include_abstracts");
      Ok(PublicationsSection(TenRules, Truthy(withAbstracts), PublicationsShown(data.publications, limit)))
  }

  function ActivitiesPart(data: CvData, config: Config): Result<string, PyError> {
    var on :- SectionEnabled(config, "activities");
    if !on then Ok("")
    else
      var filter :- Setting(config, "activities_type_filter");
      var max :- Setting(config, "max_activities");
      var limit :- Limit(max);
      Ok(ActivitiesSection(TenRules, ActivitiesShown(data.activities, filter, limit)))
  }

  ghost function SkillsPart(data: CvData, config: Config): Result<string, PyError> {
    var on :- SectionEnabled(config, "skills");
    Ok(if on then SkillsSection(
         Join(FormatSkillList(TenRules, data.skills.processEngineering, [], false), ", "),
         Join(FormatSkillList(TenRules, data.skills.dataScience, [], false), ", "),
         Join(FormatSkillList(TenRules, data.skills.programming, [], false), ", "),
         Join(FormatSkillList(TenRules, data.skills.languages, [], false), ", "))
       else "")
  }

  function HobbiesPart(data: CvData, config: Config): Result<string, PyError> {
    var on :- SectionEnabled(config, "hobbies");
    Ok(if on then HobbiesSection(TenRules, BackslashN, data.hobbies) else "")
  }

  /** The optional sections, in the order `generate_latex` appends them. */
  datatype SectionName = AboutKey | ExperienceKey | EducationKey | ProjectsKey | PublicationsKey | ActivitiesKey | SkillsKey | HobbiesKey

  const SectionOrder: seq<SectionName> :=
    [AboutKey, ExperienceKey, EducationKey, ProjectsKey, PublicationsKey, ActivitiesKey, SkillsKey, HobbiesKey]

  /** The section's key in `cv_sections`. */
  function Key(name: SectionName): string {
    match name
    case AboutKey => "about"
    case ExperienceKey => "experience"
    case EducationKey => "education"
    case ProjectsKey => "projects"
    case PublicationsKey => "publications"
    case ActivitiesKey => "activities"
    case SkillsKey => "skills"
    case HobbiesKey => "hobbies"
  }

  /** The generator of the named section. */
  ghost function SectionPart(data: CvData, config: Config, name: SectionName): Result<string, PyError> {
    match name
    case AboutKey => AboutPart(data, config)
    case ExperienceKey => ExperiencePart(data, config)
    case EducationKey => EducationPart(data, config)
    case ProjectsKey => ProjectsPart(data, config)
    case PublicationsKey => PublicationsPart(data, config)
    case ActivitiesKey => ActivitiesPart(data, config)
    case SkillsKey => SkillsPart(data, config)
    case HobbiesKey => HobbiesPart(data, config)
  }

  /** The header followed by those of the first `n` sections of `SectionOrder` whose flag is
      set; the first lookup that raises decides the error. */
  ghost function Through(data: CvData, config: Config, n: nat): Result<string, PyError>
    requires n <= |SectionOrder|
  {
    if n == 0 then Header(data, config)
    else
      var prefix :- Through(data, config, n - 1);
      var on :- SectionEnabled(config, Key(SectionOrder[n - 1]));
      if !on then Ok(prefix)
      else
        var part :- SectionPart(data, config, SectionOrder[n - 1]);
        Ok(prefix + part)
  }

  /** `generate_latex`: the header, the enabled sections in the fixed order about, experience,
      education, projects, publications, activities, skills, hobbies, then the footer. */
  ghost function Document(data: CvData, config: Config): Result<string, PyError> {
    var body :- Through(data, config, |SectionOrder|);
    Ok(body + Footer)
  }

  /** The document is the content after the last section and the footer, or the error raised
      on the way. */
  lemma {:induction false} DocumentOfSections(data: CvData, config: Config, acc: Result<string, PyError>)
    requires acc == Through(data, config, |SectionOrder|)
    ensures acc.Err? ==> Document(data, config) == Err(acc.error)
    ensures acc.Ok? ==> Document(data, config) == Ok(acc.value + Footer)
  {
  }

  // ---------------------------------------------------------------- properties

  /** The defaults enable every section except publications and activities. */
  lemma {:induction false} DefaultFlags(name: SectionName)
    ensures SectionEnabled(DefaultConfig, Key(name)) == Ok(name != PublicationsKey && name != ActivitiesKey)
  {
    match name
    case AboutKey =>
    case ExperienceKey =>
    case EducationKey =>
    case ProjectsKey =>
    case PublicationsKey =>
    case ActivitiesKey =>
    case SkillsKey =>
    case HobbiesKey =>
  }

  /** The defaults show at most five publications, without abstracts, and leave the other limits
      and the filters unset. */
  lemma DefaultSettingsSpec()
    ensures Setting(DefaultConfig, "max_publications") == Ok(JNum(5))
    ensures Setting(DefaultConfig, "include_abstracts") == Ok(JBool(false))
    ensures Setting(DefaultConfig, "max_projects") == Ok(JNull)
    ensures Setting(DefaultConfig, "max_experience") == Ok(JNull)
    ensures Setting(DefaultConfig, "max_activities") == Ok(JNull)
    ensures Setting(DefaultConfig, "projects_status_filter") == Ok(JNull)
    ensures Setting(DefaultConfig, "activities_type_filter") == Ok(JNull)
  {
  }

  /** The default `latex_settings` give the fixed preamble of the other generators. */
  lemma {:induction false} DefaultHeader(data: CvData)
    ensures Header(data, DefaultConfig) == Ok(FixedPreamble + PersonalBlock(TenRules, data.personal))
  {
    var latex := JObj(DefaultLatexSettings);
    assert Subscript(JObj(DefaultConfig), "latex_settings") == Ok(latex);
    assert Subscript(latex, "document_class") == Ok(JStr("moderncv"));
    assert Subscript(latex, "style") == Ok(JStr("classic"));
    assert Subscript(latex, "color") == Ok(JStr("blue"));
    assert Subscript(latex, "geometry") == Ok(JStr("scale=0.8"));
    HeaderOfSettings(data, DefaultConfig, latex, JStr("moderncv"), JStr("classic"), JStr("blue"), JStr("scale=0.8"));
  }

  lemma {:induction false} HeaderOfSettings(data: CvData, config: Config, latex: Json,
                                            documentClass: Json, style: Json, color: Json, geometry: Json)
    requires Subscript(JObj(config), "latex_settings") == Ok(latex)
    requires Subscript(latex, "document_class") == Ok(documentClass) && Subscript(latex, "style") == Ok(style)
    requires Subscript(latex, "color") == Ok(color) && Subscript(latex, "geometry") == Ok(geometry)
    ensures Header(data, config)
      == Ok(Preamble(PyStr(documentClass), PyStr(style), PyStr(color), PyStr(geometry)) + PersonalBlock(TenRules, data.personal))
  {
  }

  /** The merge is shallow: a user `cv_sections` dict replaces the default one, so a section it
      does not list raises KeyError instead of falling back to the default flag. */
  lemma {:induction false} UserSectionsReplaceDefaults(user: Config, m: map<string, Json>, key: string)
    requires "cv_sections" in user && user["cv_sections"] == JObj(m)
    ensures key in m ==> SectionEnabled(MergeConfig(user), key) == Ok(Truthy(m[key]))
    ensures key !in m ==> SectionEnabled(MergeConfig(user), key) == Err(KeyError(key))
  {
  }

  /** Once a lookup has raised, the rest of `generate_latex` does not run: the document is that error. */
  lemma {:induction false} ErrorPersists(data: CvData, config: Config, n: nat)
    requires n <= |SectionOrder| && Through(data, config, n).Err?
    ensures Document(data, config) == Through(data, config, n)
    decreases |SectionOrder| - n
  {
    if n < |SectionOrder| {
      ErrorStep(data, config, n);
      ErrorPersists(data, config, n + 1);
    } else {
      DocumentOfSections(data, config, Through(data, config, n));
    }
  }

  /** A raised error passes through the next section statement unchanged. */
  lemma {:induction false} ErrorStep(data: CvData, config: Config, n: nat)
    requires n < |SectionOrder| && Through(data, config, n).Err?
    ensures Through(data, config, n + 1) == Through(data, config, n)
  {
  }

  /** A user `cv_sections` without an "about" key makes `generate_latex` raise KeyError("about")
      as soon as the header is written. */
  lemma {:induction false} MissingAboutRaises(data: CvData, user: Config, m: map<string, Json>)
    requires "cv_sections" in user && user["cv_sections"] == JObj(m) && "about" !in m
    requires Header(data, MergeConfig(user)).Ok?
    ensures Document(data, MergeConfig(user)) == Err(KeyError("about"))
  {
    UserSectionsReplaceDefaults(user, m, "about");
    ErrorPersists(data, MergeConfig(user), 1);
  }

  /** For instance, a configuration file holding only `{"cv_sections": {"skills": false}}`. */
  lemma {:induction false} SkillsOnlyConfigRaises(data: CvData)
    ensures Document(data, MergeConfig(map["cv_sections" := JObj(map["skills" := JBool(false)])]))
         == Err(KeyError("about"))
  {
    var m := map["skills" := JBool(false)];
    var user := map["cv_sections" := JObj(m)];
    assert "about" !in m && "latex_settings" !in user;
    var config := MergeConfig(user);
    HeaderReadsLatexSettings(data, config, DefaultConfig);
    DefaultHeader(data);
    MissingAboutRaises(data, user, m);
  }

  /** The header depends on the configuration only through `latex_settings`. */
  lemma {:induction false} HeaderReadsLatexSettings(data: CvData, c1: Config, c2: Config)
    requires "latex_settings" in c1 && "latex_settings" in c2 && c1["latex_settings"] == c2["latex_settings"]
    ensures Header(data, c1) == Header(data, c2)
  {
  }

  /** The concatenation of the parts whose flag is set, among the first `n`, in order. */
  function Shown(on: seq<bool>, parts: seq<string>, n: nat): string
    requires n <= |on| && n <= |parts|
  {
    if n == 0 then "" else Shown(on, parts, n - 1) + (if on[n - 1] then parts[n - 1] else "")
  }

  /** With every lookup succeeding, the document is the header, the enabled sections in the
      fixed order, and the footer. */
  lemma {:induction false} DocumentOrder(data: CvData, config: Config, header: string, on: seq<bool>, parts: seq<string>)
    requires Header(data, config) == Ok(header)
    requires |on| == |SectionOrder| && |parts| == |SectionOrder|
    requires forall i :: 0 <= i < |SectionOrder| ==> SectionEnabled(config, Key(SectionOrder[i])) == Ok(on[i])
    requires forall i :: 0 <= i < |SectionOrder| && on[i] ==> SectionPart(data, config, SectionOrder[i]) == Ok(parts[i])
    ensures Document(data, config) == Ok(header + Shown(on, parts, |SectionOrder|) + Footer)
  {
    ThroughShown(data, config, header, on, parts, |SectionOrder|);
  }

  lemma {:induction false} ThroughShown(data: CvData, config: Config, header: string, on: seq<bool>, parts: seq<string>, n: nat)
    requires Header(data, config) == Ok(header)
    requires |on| == |SectionOrder| && |parts| == |SectionOrder| && n <= |SectionOrder|
    requires forall i :: 0 <= i < |SectionOrder| ==> SectionEnabled(config, Key(SectionOrder[i])) == Ok(on[i])
    requires forall i :: 0 <= i < |SectionOrder| && on[i] ==> SectionPart(data, config, SectionOrder[i]) == Ok(parts[i])
    ensures Through(data, config, n) == Ok(header + Shown(on, parts, n))
  {
    if n == 0 {
      EmptySuffix(header);
    } else {
      ThroughShown(data, config, header, on, parts, n - 1);
      ThroughStep(data, config, n, header + Shown(on, parts, n - 1), on[n - 1], parts[n - 1]);
      ShownStep(header, on, parts, n);
    }
  }

  /** One statement of `generate_latex`: a set flag appends the section, a clear one skips it. */
  lemma {:induction false} ThroughStep(data: CvData, config: Config, n: nat, prefix: string, on: bool, part: string)
    requires 0 < n <= |SectionOrder| && Through(data, config, n - 1) == Ok(prefix)
    requires SectionEnabled(config, Key(SectionOrder[n - 1])) == Ok(on)
    requires on ==> SectionPart(data, config, SectionOrder[n - 1]) == Ok(part)
    ensures Through(data, config, n) == Ok(if on then prefix + part else prefix)
  {
  }

  lemma {:induction false} EmptySuffix(s: string)
    ensures s + "" == s
  {
  }

  lemma {:induction false} ShownStep(header: string, on: seq<bool>, parts: seq<string>, n: nat)
    requires 0 < n <= |on| && n <= |parts|
    ensures header + Shown(on, parts, n)
         == if on[n - 1] then header + Shown(on, parts, n - 1) + parts[n - 1] else header + Shown(on, parts, n - 1)
  {
    AppendAssoc(header, Shown(on, parts, n - 1), parts[n - 1]);
  }

  /** With every section switched off, the document is the header and the footer. */
  lemma {:induction false} AllSectionsOff(data: CvData, config: Config, header: string)
    requires Header(data, config) == Ok(header)
    requires forall name :: SectionEnabled(config, Key(name)) == Ok(false)
    ensures Document(data, config) == Ok(header + Footer)
  {
    var on := seq(|SectionOrder|, _ => false);
    var parts := seq(|SectionOrder|, _ => "");
    ThroughOff(on, parts, |SectionOrder|);
    EmptySuffix(header);
    DocumentOrder(data, config, header, on, parts);
  }

  lemma {:induction false} ThroughOff(on: seq<bool>, parts: seq<string>, n: nat)
    requires n <= |on| && n <= |parts| && forall i :: 0 <= i < |on| ==> !on[i]
    ensures Shown(on, parts, n) == ""
  {
    if n > 0 {
      ThroughOff(on, parts, n - 1);
    }
  }

  /** Projects: a truthy status filter keeps exactly the projects with that status, a truthy
      limit then keeps a prefix; the result is an order-preserving subsequence, no longer than
      a positive limit, and everything when neither is set. */
  lemma {:induction false} ProjectsShownSpec(projects: seq<Project>, filter: Json, limit: Option<int>)
    ensures IsSubseq(ProjectsShown(projects, filter, limit), projects)
    ensures limit.Some? && limit.value > 0 ==> |ProjectsShown(projects, filter, limit)| <= limit.value
    ensures Truthy(filter) ==> forall p :: p in ProjectsShown(projects, filter, limit) ==>
      p.status.Some? && filter == JStr(p.status.value)
    ensures !Truthy(filter) && limit == None ==> ProjectsShown(projects, filter, limit) == projects
  {
    if Truthy(filter) {
      FilterThenLimit(projects, HasStatus(filter), limit);
    } else {
      LimitSpec(projects, limit);
      PrefixSubseq(projects, |ApplyLimit(projects, limit)|);
    }
  }

  /** Activities: the same pipeline over the activity type; an absent list shows nothing. */
  lemma {:induction false} ActivitiesShownSpec(activities: Option<seq<Activity>>, filter: Json, limit: Option<int>)
    ensures IsSubseq(ActivitiesShown(activities, filter, limit), activities.GetOr([]))
    ensures limit.Some? && limit.value > 0 ==> |ActivitiesShown(activities, filter, limit)| <= limit.value
    ensures Truthy(filter) ==> forall a :: a in ActivitiesShown(activities, filter, limit) ==>
      a.kind.Some? && filter == JStr(a.kind.value)
    ensures activities.None? ==> ActivitiesShown(activities, filter, limit) == []
  {
    var all := activities.GetOr([]);
    if Truthy(filter) {
      FilterThenLimit(all, HasType(filter), limit);
    } else {
      LimitSpec(all, limit);
      PrefixSubseq(all, |ApplyLimit(all, limit)|);
    }
  }

  /** Publications: a prefix of the list (empty when the key is absent), of length
      `min(n, limit)` for a positive limit and whole for a falsy one. */
  lemma {:induction false} PublicationsShownSpec(publications: Option<seq<Publication>>, limit: Option<int>)
    ensures var shown := PublicationsShown(publications, limit);
      var all := publications.GetOr([]);
      shown == all[..|shown|]
      && (publications.None? ==> shown == [])
      && (limit == None || limit == Some(0) ==> shown == all)
      && (limit.Some? && limit.value > 0 ==> |shown| == if limit.value < |all| then limit.value else |all|)
  {
    LimitSpec(publications.GetOr([]), limit);
  }

  /** The location part is present exactly when the activity has a non-empty location. */
  lemma {:induction false} LocationPartSpec(a: Activity)
    ensures a.location.None? || a.location == Some("") ==> LocationPart(TenRules, a) == ""
    ensures a.location.Some? && a.location.value != "" ==>
      LocationPart(TenRules, a) == ", " + ApplyRules(TenRules, a.location.value)
  {
    EscapeBasics(a.location.GetOr(""));
  }

  /** Every section generator first reads its own flag: a clear flag gives the empty string, a
      missing flag raises before anything else is read. */
  lemma {:induction false} SectionGuard(data: CvData, config: Config, name: SectionName)
    ensures SectionEnabled(config, Key(name)) == Ok(false) ==> SectionPart(data, config, name) == Ok("")
    ensures SectionEnabled(config, Key(name)).Err? ==>
      SectionPart(data, config, name) == Err(SectionEnabled(config, Key(name)).error)
  {
  }

  // ---------------------------------------------------------------- the generator

  class Generator {
    const data: CvData
    const config: Config

    /** `__init__` with the loaded data and the configuration `load_config` returned. */
    constructor (data: CvData, config: Config)
      ensures this.data == data && this.config == config
    {
      this.data := data;
      this.config := config;
    }

    method GenerateHeader() returns (r: Result<string, PyError>)
      ensures r == Header(data, config)
    {
      var latex :- Subscript(JObj(config), "latex_settings");
      var documentClass :- Subscript(latex, "document_class");
      var style :- Subscript(latex, "style");
      var color :- Subscript(latex, "color");
      var geometry :- Subscript(latex, "geometry");
      var header := Preamble(PyStr(documentClass), PyStr(style), PyStr(color), PyStr(geometry));
      header := header + PersonalBlock(TenRules, data.personal);
      return Ok(header);
    }

    method GenerateAboutSection() returns (r: Result<string, PyError>)
      ensures r == AboutPart(data, config)
    {
      var on :- SectionEnabled(config, "about");
      if !on {
        return Ok("");
      }
      return Ok(AboutSection(TenRules, data.personal.about));
    }

    method GenerateExperienceSection() returns (r: Result<string, PyError>)
      ensures r == ExperiencePart(data, config)
    {
      var on :- SectionEnabled(config, "experience");
      if !on {
        return Ok("");
      }
      var max :- Setting(config, "max_experience");
      var limit :- Limit(max);
      var section := RenderExperience(TenRules, false, false, Unscored(ApplyLimit(data.experience, limit)));
      return Ok(section);
    }

    method GenerateEducationSection() returns (r: Result<string, PyError>)
      ensures r == EducationPart(data, config)
    {
      var on :- SectionEnabled(config, "education");
      if !on {
        return Ok("");
      }
      var section := RenderEducation(TenRules, EducationLayout, data.education);
      return Ok(section);
    }

    method GenerateProjectsSection() returns (r: Result<string, PyError>)
      ensures r == ProjectsPart(data, config)
    {
      var on :- SectionEnabled(config, "projects");
      if !on {
        return Ok("");
      }
      var filter :- Setting(config, "projects_status_filter");
      var max :- Setting(config, "max_projects");
      var limit :- Limit(max);
      var section := RenderProjects(TenRules, BackslashN, BackslashN, false, Unscored(ProjectsShown(data.projects, filter, limit)));
      return Ok(section);
    }

    method GeneratePublicationsSection() returns (r: Result<string, PyError>)
      ensures r == PublicationsPart(data, config)
    {
      var on :- SectionEnabled(config, "publications");
      if !on {
        return Ok("");
      }
      var max :- Setting(config, "max_publications");
      var limit :- Limit(max);
      var withAbstracts :- Setting(config, "include_abstracts");
      var section := RenderPublications(TenRules, Truthy(withAbstracts), PublicationsShown(data.publications, limit));
      return Ok(section);
    }

    method GenerateActivitiesSection() returns (r: Result<string, PyError>)
      ensures r == ActivitiesPart(data, config)
    {
      var on :- SectionEnabled(config, "activities");
      if !on {
        return Ok("");
      }
      var filter :- Setting(config, "activities_type_filter");
      var max :- Setting(config, "max_activities");
      var limit :- Limit(max);
      var section := RenderActivities(TenRules, ActivitiesShown(data.activities, filter, limit));
      return Ok(section);
    }

    method GenerateSkillsSection() returns (r: Result<string, PyError>)
      ensures r == SkillsPart(data, config)
    {
      var on :- SectionEnabled(config, "skills");
      if !on {
        return Ok("");
      }
      var section := RenderSkills(TenRules, data.skills, [], false);
      return Ok(section);
    }

    method GenerateHobbiesSection() returns (r: Result<string, PyError>)
      ensures r == HobbiesPart(data, config)
    {
      var on :- SectionEnabled(config, "hobbies");
      if !on {
        return Ok("");
      }
      var section := RenderHobbies(TenRules, BackslashN, data.hobbies);
      return Ok(section);
    }

    /** The generator method of the named section. */
    method GenerateSection(name: SectionName) returns (r: Result<string, PyError>)
      ensures r == SectionPart(data, config, name)
    {
      match name
      case AboutKey => r := GenerateAboutSection();
      case ExperienceKey => r := GenerateExperienceSection();
      case EducationKey => r := GenerateEducationSection();
      case ProjectsKey => r := GenerateProjectsSection();
      case PublicationsKey => r := GeneratePublicationsSection();
      case ActivitiesKey => r := GenerateActivitiesSection();
      case SkillsKey => r := GenerateSkillsSection();
      case HobbiesKey => r := GenerateHobbiesSection();
    }

    /** One statement `if self.config['cv_sections'][name]: latex_content += ...` of
        `generate_latex`, applied to the content so far (or to the error raised so far). */
    method AddSection(acc: Result<string, PyError>, n: nat) returns (r: Result<string, PyError>)
      requires n < |SectionOrder| && acc == Through(data, config, n)
      ensures r == Through(data, config, n + 1)
    {
      var content :- acc;
      var on :- SectionEnabled(config, Key(SectionOrder[n]));
      if on {
        var part :- GenerateSection(SectionOrder[n]);
        content := content + part;
      }
      return Ok(content);
    }

    /** `generate_latex`: the header, each section in the fixed order when its flag is set, and
        the footer. */
    method GenerateLatex() returns (r: Result<string, PyError>)
      ensures r == Document(data, config)
    {
      var acc := GenerateHeader();
      acc := AddSection(acc, 0);
      acc := AddSection(acc, 1);
      acc := AddSection(acc, 2);
      acc := AddSection(acc, 3);
      acc := AddSection(acc, 4);
      acc := AddSection(acc, 5);
      acc := AddSection(acc, 6);
      acc := AddSection(acc, 7);
      DocumentOfSections(data, config, acc);
      var content :- acc;
      return Ok(content + Footer);
    }
  }
}
