/** `ActivitiesExtractor` of Python/activities_extractor.py (activities_extractor.py is a verbatim
    copy): turns the "date: description" items of the skills page into activity records, each with
    a type from an ordered keyword table, an event name and an optional location, and replaces the
    `activities` list of the CV data file with them.

    The regular-expression searches of `extract_location` and `extract_event_name` are not
    modelled: a `Patterns` value stands for them, giving for a description the capture of each
    pattern in turn (`None` where that pattern does not match). What the extractor does with the
    captures is modelled exactly. The tag removal `re.sub(r'<[^>]+>', '', s)` is modelled in full. */
module ActivitiesExtractor {
  import opened Wrappers
  import opened Text
  import opened Seqs
  import opened Json

  /** The searches of the six location patterns and of the five event-name patterns. */
  datatype Patterns = Patterns(location: string -> seq<Option<string>>, event: string -> seq<Option<string>>)

  /** One match of the item pattern of `extract_from_html`: the date and the description groups. */
  datatype ItemMatch = ItemMatch(date: string, description: string)

  // ---------------------------------------------------------------------------------------
  // Tag removal

  /** The pattern `<[^>]+>` matches at the start of `s`: a `<`, at least one character other
      than `>`, then a `>`. */
  predicate TagAt(s: string) {
    |s| >= 2 && s[0] == '<' && s[1] != '>' && '>' in s[2..]
  }

  /** The length of that match: it ends at the first `>`. */
  function TagLength(s: string): (n: nat)
    requires TagAt(s)
    ensures 3 <= n <= |s| && s[n - 1] == '>' && '>' !in s[1..n - 1]
  {
    var j := IndexOf(s[2..], '>');
    assert s[1..2 + j] == [s[1]] + s[2..][..j];
    3 + j
  }

  /** `re.sub(r'<[^>]+>', '', s)`: scanning left to right, each tag is dropped and every other
      character is kept. */
  function StripTags(s: string): string
    decreases |s|
  {
    if s == [] then []
    else if TagAt(s) then StripTags(s[TagLength(s)..])
    else [s[0]] + StripTags(s[1..])
  }

  /** No position of `s` starts a tag: `re.search(r'<[^>]+>', s)` finds nothing. */
  predicate NoTag(s: string) {
    forall i :: 0 <= i < |s| ==> !TagAt(s[i..])
  }

  lemma {:induction false} StripTagsChars(s: string)
    ensures forall c :: c in StripTags(s) ==> c in s
    decreases |s|
  {
    if s != [] {
      if TagAt(s) {
        StripTagsChars(s[TagLength(s)..]);
      } else {
        StripTagsChars(s[1..]);
      }
    }
  }

  lemma {:induction false} SubseqSuffix<T>(a: seq<T>, b: seq<T>, n: nat)
    requires n <= |b| && IsSubseq(a, b[n..])
    ensures IsSubseq(a, b)
    decreases n
  {
    if n > 0 {
      assert b[n - 1..] == [b[n - 1]] + b[n..];
      SubseqSkip(a, b[n..], b[n - 1]);
      SubseqSuffix(a, b, n - 1);
    }
  }

  /** Tag removal keeps the other characters in order and leaves no tag behind. */
  lemma {:induction false} StripTagsSpec(s: string)
    ensures IsSubseq(StripTags(s), s)
    ensures NoTag(StripTags(s))
    decreases |s|
  {
    if s != [] {
      if TagAt(s) {
        var n := TagLength(s);
        StripTagsSpec(s[n..]);
        SubseqSuffix(StripTags(s[n..]), s, n);
      } else {
        var rest := StripTags(s[1..]);
        var r := [s[0]] + rest;
        StripTagsSpec(s[1..]);
        assert r[1..] == rest;
        forall i | 1 <= i < |r| ensures !TagAt(r[i..]) {
          assert r[i..] == rest[i - 1..];
        }
        if s[0] == '<' && |s| >= 2 {
          if s[1] == '>' {
            assert !TagAt(s[1..]);
            assert r[1] == '>';
          } else {
            assert '>' !in s[1..] by {
              assert s[1..] == [s[1]] + s[2..];
            }
            StripTagsChars(s[1..]);
            if |r| >= 2 {
              assert r[2..] == rest[1..];
              assert forall c :: c in rest[1..] ==> c in rest;
            }
          }
        }
        assert r[0..] == r;
      }
    }
  }

  /** Text without tags comes back unchanged. */
  lemma {:induction false} StripTagsNoTag(s: string)
    requires NoTag(s)
    ensures StripTags(s) == s
    decreases |s|
  {
    if s != [] {
      assert s[0..] == s;
      forall i | 0 <= i < |s[1..]| ensures !TagAt(s[1..][i..]) {
        assert s[1..][i..] == s[i + 1..];
      }
      StripTagsNoTag(s[1..]);
    }
  }

  /** Removing tags twice is removing them once; text without `<` is left alone. */
  lemma {:induction false} StripTagsIdempotent(s: string)
    ensures StripTags(StripTags(s)) == StripTags(s)
    ensures '<' !in s ==> StripTags(s) == s
  {
    StripTagsSpec(s);
    StripTagsNoTag(StripTags(s));
    if '<' !in s {
      forall i | 0 <= i < |s| ensures !TagAt(s[i..]) {
        assert s[i..][0] == s[i];
      }
      StripTagsNoTag(s);
    }
  }

  // ---------------------------------------------------------------------------------------
  // Activity type

  /** The `if ... elif` chain of `determine_activity_type`, in order. */
  const ActivityRules: seq<(seq<string>, string)> := [
    (["conference", "symposium"], "conference"),
    (["workshop", "modelling workshop"], "workshop"),
    (["summer school"], "summer_school"),
    (["spring school"], "spring_school"),
    (["training", "mooc"], "training"),
    (["presentation", "presented", "talk", "delivered"], "presentation"),
    (["webinar", "webinaire"], "webinar"),
    (["seminar"], "seminar")
  ]

  const ActivityLabels: set<string> :=
    {"conference", "workshop", "summer_school", "spring_school", "training", "presentation", "webinar", "seminar"}

  /** `determine_activity_type`: the label of the first rule with a keyword in the lower-cased
      description, and "conference" when none has. */
  function DetermineActivityType(description: string): string {
    FirstMatch(Lower(description), ActivityRules, "conference")
  }

  /** The type is always one of the eight labels; "symposium" is never a label. */
  lemma {:induction false} ActivityTypeLabels(description: string)
    ensures DetermineActivityType(description) in ActivityLabels
    ensures DetermineActivityType(description) != "symposium"
  {
    var r := DetermineActivityType(description);
    if r != "conference" {
      var k :| 0 <= k < |ActivityRules| && r == ActivityRules[k].1;
      RuleLabel(k);
    }
  }

  lemma RuleLabel(k: nat)
    requires k < |ActivityRules|
    ensures ActivityRules[k].1 in ActivityLabels && ActivityRules[k].1 != "symposium"
  {
    if k < 4 {
      assert k == 0 || k == 1 || k == 2 || k == 3;
    } else {
      assert k == 4 || k == 5 || k == 6 || k == 7;
    }
  }

  /** "conference" or "symposium" anywhere (in any case) decides "conference" before any other
      rule, so a description naming both a conference and a workshop is a conference. */
  lemma {:induction false} ConferenceFirst(description: string)
    requires Contains(Lower(description), "conference") || Contains(Lower(description), "symposium")
    ensures DetermineActivityType(description) == "conference"
  {
    var text := Lower(description);
    if Contains(text, "conference") {
      assert ActivityRules[0].0[0] == "conference";
    } else {
      assert ActivityRules[0].0[1] == "symposium";
    }
    assert AnyIn(text, ActivityRules[0].0);
  }

  /** Without a conference keyword, "workshop" wins over the school, training and talk rules, so
      a "summer school workshop" is a workshop. */
  lemma {:induction false} WorkshopBeforeSchools(description: string)
    requires !Contains(Lower(description), "conference") && !Contains(Lower(description), "symposium")
    requires Contains(Lower(description), "workshop")
    ensures DetermineActivityType(description) == "workshop"
  {
    var text := Lower(description);
    assert ActivityRules[1].0[0] == "workshop";
    assert AnyIn(text, ActivityRules[1].0);
    assert !AnyIn(text, ActivityRules[0].0) by {
      assert ActivityRules[0].0 == ["conference", "symposium"];
    }
  }

  /** A description with none of the keywords defaults to "conference". */
  lemma {:induction false} NoKeywordIsConference(description: string)
    requires forall k, j :: 0 <= k < |ActivityRules| && 0 <= j < |ActivityRules[k].0| ==>
      !Contains(Lower(description), ActivityRules[k].0[j])
    ensures DetermineActivityType(description) == "conference"
  {
  }

  // ---------------------------------------------------------------------------------------
  // Location

  /** `re.sub(r'^(the\s+)?', '', s, flags=re.IGNORECASE)`: a leading "the" in any case followed
      by whitespace is removed together with all of that whitespace. */
  function DropLeadingThe(s: string): string {
    if |s| > 3 && LowerChar(s[0]) == 't' && LowerChar(s[1]) == 'h' && LowerChar(s[2]) == 'e' && IsSpace(s[3])
    then StripLeft(s[3..])
    else s
  }

  /** A capture as `extract_location` cleans it: stripped, then without a leading "the". */
  function CleanLocation(capture: string): string {
    DropLeadingThe(Strip(capture))
  }

  /** A pattern's capture is used when the pattern matched and the cleaned capture has at most
      50 characters; a longer one is skipped in favour of the next pattern. */
  predicate LocationAccepted(capture: Option<string>) {
    capture.Some? && |CleanLocation(capture.value)| <= 50
  }

  /** The post-match logic of `extract_location` over the captures of its patterns in order. */
  function ExtractLocation(captures: seq<Option<string>>): string
    decreases |captures|
  {
    if captures == [] then ""
    else if LocationAccepted(captures[0]) then CleanLocation(captures[0].value)
    else ExtractLocation(captures[1..])
  }

  /** The location is the cleaned capture of the first pattern whose capture is acceptable, and
      "" when there is none; it never exceeds 50 characters. */
  lemma {:induction false} ExtractLocationSpec(captures: seq<Option<string>>)
    ensures |ExtractLocation(captures)| <= 50
    ensures (forall k :: 0 <= k < |captures| ==> !LocationAccepted(captures[k])) ==> ExtractLocation(captures) == ""
    ensures forall k :: (0 <= k < |captures| && LocationAccepted(captures[k])
      && forall j :: 0 <= j < k ==> !LocationAccepted(captures[j])) ==>
      ExtractLocation(captures) == CleanLocation(captures[k].value)
    decreases |captures|
  {
    if captures != [] {
      ExtractLocationSpec(captures[1..]);
      if !LocationAccepted(captures[0]) {
        forall k | 1 <= k < |captures| ensures captures[1..][k - 1] == captures[k] { }
      }
    }
  }

  // ---------------------------------------------------------------------------------------
  // Event name

  /** A pattern's capture is used as the event name when the pattern matched and the stripped
      capture has strictly between 10 and 100 characters. */
  predicate EventAccepted(capture: Option<string>) {
    capture.Some? && 10 < |Strip(capture.value)| < 100
  }

  /** The fallback of `extract_event_name`: the first eight words and "..." when there are more
      than three words; otherwise the first 50 characters and "..." when longer than 50. */
  function EventFallback(description: string): string {
    var words := Words(description);
    if |words| > 3 then Join(PySliceTo(words, 8), " ") + "..."
    else if |description| > 50 then description[..50] + "..."
    else description
  }

  /** The post-match logic of `extract_event_name` over the captures of its patterns in order. */
  function ExtractEventName(description: string, captures: seq<Option<string>>): string
    decreases |captures|
  {
    if captures == [] then EventFallback(description)
    else if EventAccepted(captures[0]) then Strip(captures[0].value)
    else ExtractEventName(description, captures[1..])
  }

  /** The event name is the stripped capture of the first acceptable pattern, whose length is
      then strictly between 10 and 100, and the fallback when no capture is acceptable. */
  lemma {:induction false} ExtractEventNameSpec(description: string, captures: seq<Option<string>>)
    ensures (forall k :: 0 <= k < |captures| ==> !EventAccepted(captures[k])) ==>
      ExtractEventName(description, captures) == EventFallback(description)
    ensures forall k :: (0 <= k < |captures| && EventAccepted(captures[k])
      && forall j :: 0 <= j < k ==> !EventAccepted(captures[j])) ==>
      ExtractEventName(description, captures) == Strip(captures[k].value)
      && 10 < |ExtractEventName(description, captures)| < 100
  {
    if forall k :: 0 <= k < |captures| ==> !EventAccepted(captures[k]) {
      EventNameFallback(description, captures);
    }
    forall k | 0 <= k < |captures| && EventAccepted(captures[k]) && forall j :: 0 <= j < k ==> !EventAccepted(captures[j])
      ensures ExtractEventName(description, captures) == Strip(captures[k].value)
    {
      EventNameAt(description, captures, k);
    }
  }

  lemma {:induction false} EventNameFallback(description: string, captures: seq<Option<string>>)
    requires forall k :: 0 <= k < |captures| ==> !EventAccepted(captures[k])
    ensures ExtractEventName(description, captures) == EventFallback(description)
    decreases |captures|
  {
    if captures != [] {
      assert !EventAccepted(captures[0]);
      forall k | 0 <= k < |captures| - 1 ensures !EventAccepted(captures[1..][k]) {
        assert captures[1..][k] == captures[k + 1];
      }
      EventNameFallback(description, captures[1..]);
    }
  }

  lemma {:induction false} EventNameAt(description: string, captures: seq<Option<string>>, k: nat)
    requires k < |captures| && EventAccepted(captures[k])
    requires forall j :: 0 <= j < k ==> !EventAccepted(captures[j])
    ensures ExtractEventName(description, captures) == Strip(captures[k].value)
    decreases k
  {
    if k > 0 {
      assert !EventAccepted(captures[0]);
      assert captures[1..][k - 1] == captures[k];
      forall j | 0 <= j < k - 1 ensures !EventAccepted(captures[1..][j]) {
        assert captures[1..][j] == captures[j + 1];
      }
      EventNameAt(description, captures[1..], k - 1);
    }
  }

  /** With more than three words the fallback is the first `min(8, n)` words joined by single
      spaces and "..."; otherwise it is the description itself when at most 50 characters, and its
      first 50 characters and "..." when longer. */
  lemma {:induction false} EventFallbackSpec(description: string)
    ensures var words := Words(description);
      |words| > 3 ==> exists n :: (4 <= n <= 8 && n <= |words| && (n == 8 || n == |words|)
        && EventFallback(description) == Join(words[..n], " ") + "...")
    ensures |Words(description)| <= 3 && |description| <= 50 ==> EventFallback(description) == description
    ensures |Words(description)| <= 3 && |description| > 50 ==>
      |EventFallback(description)| == 53 && EventFallback(description)[..50] == description[..50]
      && EventFallback(description)[50..] == "..."
  {
    var words := Words(description);
    if |words| > 3 {
      var n := |PySliceTo(words, 8)|;
      assert PySliceTo(words, 8) == words[..n];
    }
  }

  // ---------------------------------------------------------------------------------------
  // Records

  /** The description as `parse_activity` cleans it: tags removed, then stripped. */
  function CleanDescription(description: string): string {
    Strip(StripTags(description))
  }

  /** A tag at the start of a prefix is a tag at the start of the whole text. */
  lemma {:induction false} TagAtPrefix(u: string, n: nat)
    requires n <= |u|
    ensures TagAt(u[..n]) ==> TagAt(u)
  {
    if TagAt(u[..n]) {
      assert u[..n][2..] == u[2..n];
      var c :| c in u[2..n] && c == '>';
      assert u[2..n] == u[2..][..n - 2];
    }
  }

  /** A tag-free text stays tag-free when cut to a slice. */
  lemma {:induction false} NoTagSlice(s: string, a: nat, b: nat)
    requires NoTag(s) && a <= b <= |s|
    ensures NoTag(s[a..b])
  {
    forall i | 0 <= i < b - a ensures !TagAt(s[a..b][i..]) {
      var t := s[a..b][i..];
      var u := s[a + i..];
      assert t == u[..|t|];
      TagAtPrefix(u, |t|);
    }
  }

  /** The cleaned description has no tag left and no surrounding whitespace. */
  lemma {:induction false} CleanDescriptionSpec(description: string)
    ensures var text := CleanDescription(description);
      NoTag(text) && (text != [] ==> !IsSpace(text[0]) && !IsSpace(text[|text| - 1]))
  {
    var t := StripTags(description);
    StripTagsSpec(description);
    var l := StripLeft(t);
    StripLeftSpec(t);
    NoTagSlice(t, |t| - |l|, |t|);
    StripRightSpec(l);
    NoTagSlice(l, 0, |StripRight(l)|);
    var r := StripRight(l);
    if r != [] {
      assert r[0] == l[0];
    }
  }

  /** The dict `parse_activity` builds from its parts: date, event, type and description, and the
      location only when it is non-empty. */
  function ActivityDict(date: string, event: string, activityType: string, text: string, location: string): map<string, Json> {
    var record := map[
      "date" := JStr(date), "event" := JStr(event),
      "type" := JStr(activityType), "description" := JStr(text)];
    if location != "" then record["location" := JStr(location)] else record
  }

  /** Every part lands under its own key, and the location key is there exactly when the location
      is non-empty. */
  lemma {:induction false} ActivityDictSpec(date: string, event: string, activityType: string, text: string, location: string)
    ensures var r := ActivityDict(date, event, activityType, text, location);
      r.Keys == {"date", "event", "type", "description"} + (if location != "" then {"location"} else {})
      && r["date"] == JStr(date) && r["event"] == JStr(event)
      && r["type"] == JStr(activityType) && r["description"] == JStr(text)
      && ("location" in r ==> r["location"] == JStr(location))
  {
    var record := map[
      "date" := JStr(date), "event" := JStr(event),
      "type" := JStr(activityType), "description" := JStr(text)];
    // "location" differs in length from every other key, so adding it keeps the rest.
    assert |"location"| == 8;
    assert "location" !in record;
  }

  /** The record `parse_activity` returns for a description: the dict of its cleaned text. */
  function ActivityRecord(date: string, description: string, patterns: Patterns): map<string, Json> {
    var text := CleanDescription(description);
    ActivityDict(date, ExtractEventName(text, patterns.event(text)), DetermineActivityType(text), text,
                 ExtractLocation(patterns.location(text)))
  }

  /** `parse_activity`: clean the description, classify it, build the dict and insert the
      location key when the location is non-empty. */
  method ParseActivity(date: string, description: string, patterns: Patterns) returns (activity: map<string, Json>)
    ensures activity == ActivityRecord(date, description, patterns)
  {
    var text := CleanDescription(description);
    var activityType := DetermineActivityType(text);
    var location := ExtractLocation(patterns.location(text));
    activity := map[
      "date" := JStr(date),
      "event" := JStr(ExtractEventName(text, patterns.event(text))),
      "type" := JStr(activityType),
      "description" := JStr(text)];
    if location != "" {
      activity := activity["location" := JStr(location)];
    }
  }

  /** Every record has the date, event, type and description keys; the location key is present
      exactly when the location is non-empty; there is no other key. */
  lemma {:induction false} ActivityRecordKeys(date: string, description: string, patterns: Patterns)
    ensures var r := ActivityRecord(date, description, patterns);
      "date" in r && "event" in r && "type" in r && "description" in r
      && ("location" in r <==> ExtractLocation(patterns.location(CleanDescription(description))) != "")
      && r.Keys <= {"date", "event", "type", "description", "location"}
  {
    var text := CleanDescription(description);
    ActivityDictSpec(date, ExtractEventName(text, patterns.event(text)), DetermineActivityType(text), text,
                     ExtractLocation(patterns.location(text)));
  }

  /** The date is kept as given, the description is the cleaned text (so it holds no tag), the
      type is one of the eight labels and a present location is the extracted one. */
  lemma {:induction false} ActivityRecordValues(date: string, description: string, patterns: Patterns)
    ensures var r := ActivityRecord(date, description, patterns);
      var text := CleanDescription(description);
      r["date"] == JStr(date) && r["description"] == JStr(text) && NoTag(text)
      && r["type"].JStr? && r["type"].s in ActivityLabels
      && ("location" in r ==> r["location"] == JStr(ExtractLocation(patterns.location(text))))
  {
    var text := CleanDescription(description);
    ActivityTypeLabels(text);
    CleanDescriptionSpec(description);
    ActivityDictSpec(date, ExtractEventName(text, patterns.event(text)), DetermineActivityType(text), text,
                     ExtractLocation(patterns.location(text)));
  }

  /** The loop of `extract_from_html` over the item matches: each date and description is
      stripped and parsed, and every record is kept. */
  method ExtractActivities(matches: seq<ItemMatch>, patterns: Patterns) returns (activities: seq<Json>)
    ensures |activities| == |matches|
    ensures forall k :: 0 <= k < |matches| ==>
      activities[k] == JObj(ActivityRecord(Strip(matches[k].date), Strip(matches[k].description), patterns))
  {
    activities := [];
    var i := 0;
    while i < |matches|
      invariant 0 <= i <= |matches| && |activities| == i
      invariant forall k :: 0 <= k < i ==>
        activities[k] == JObj(ActivityRecord(Strip(matches[k].date), Strip(matches[k].description), patterns))
    {
      var activity := ParseActivity(Strip(matches[i].date), Strip(matches[i].description), patterns);
      activities := activities + [JObj(activity)];
      i := i + 1;
    }
  }

  /** `merge_with_existing_data`: the `activities` key of the data file is replaced wholesale by
      the extracted list, and nothing is written when that list is empty or the file cannot be
      loaded. */
  method MergeWithExistingData(file: JsonFile, extracted: seq<Json>) returns (ok: bool, written: Option<Json>)
    ensures ok <==> file.Parsed? && file.content.JObj? && extracted != []
    ensures ok <==> written.Some?
    ensures ok ==> (written.value.JObj? && "activities" in written.value.fields
      && written.value.fields["activities"] == JArr(extracted))
    ensures ok ==> forall k :: k != "activities" ==>
      (k in written.value.fields <==> k in file.content.fields)
      && (k in file.content.fields ==> written.value.fields[k] == file.content.fields[k])
  {
    ok, written := ReplaceKey(file, "activities", extracted);
  }
}
