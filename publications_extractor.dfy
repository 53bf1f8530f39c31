/** `PublicationsExtractor` of Python/extract_publications.py (extract_publications.py is a
    verbatim copy): reads the publication cards of the publications page into publication records
    (title, DOI, venue, year, abstract, type) and replaces the `publications` list of the CV data
    file with them.

    The DOM lookups are not modelled: a `Card` value holds what `find` and `get_text` return for
    one card. The venue/year pattern `Published in:\s*(.+),\s*(\d{4})` is modelled with its search
    and backtracking; the fallback parsing, the abstract clean-up and the type rules exactly. */
module PublicationsExtractor {
  import opened Wrappers
  import opened Text
  import opened Seqs
  import opened Json

  /** The `<a>` inside the title: its text and its `href` attribute, if any. */
  datatype TitleLink = TitleLink(text: string, href: Option<string>)

  /** The `h5.card-title` element: its text and the link inside it, if any. */
  datatype TitleElement = TitleElement(text: string, link: Option<TitleLink>)

  /** The `div.card-body` of a card: the title element, the text of the `h6.card-subtitle` and
      the text of the `p.card-text`, each absent when `find` returns `None`. */
  datatype CardBody = CardBody(title: Option<TitleElement>, subtitle: Option<string>, paragraph: Option<string>)

  /** One `li` card: its card body, if it has one. */
  datatype Card = Card(body: Option<CardBody>)

  const PublishedLabel: string := "Published in:"
  const AbstractLabel: string := "Abstract:"
  const DefaultAuthor: string := "Benaissa Dekhici"

  // ---------------------------------------------------------------------------------------
  // The venue/year pattern `Published in:\s*(.+),\s*(\d{4})`

  /** The length of the longest run of whitespace starting at `i` (a greedy `\s*`). */
  function SpaceRun(s: string, i: nat): (n: nat)
    requires i <= |s|
    ensures i + n <= |s|
    ensures forall k :: i <= k < i + n ==> IsSpace(s[k])
    ensures i + n < |s| ==> !IsSpace(s[i + n])
    decreases |s| - i
  {
    if i < |s| && IsSpace(s[i]) then 1 + SpaceRun(s, i + 1) else 0
  }

  /** The end of the line holding position `i`: `.` matches up to there. */
  function LineEnd(s: string, i: nat): (j: nat)
    requires i <= |s|
    ensures i <= j <= |s|
    ensures forall k :: i <= k < j ==> s[k] != '\n'
    ensures j < |s| ==> s[j] == '\n'
    decreases |s| - i
  {
    if i < |s| && s[i] != '\n' then LineEnd(s, i + 1) else i
  }

  /** Where the year starts after the comma at `e`: past the longest run of whitespace. */
  function YearStart(s: string, e: nat): nat
    requires e < |s|
  {
    e + 1 + SpaceRun(s, e + 1)
  }

  /** `,\s*(\d{4})` matches at `e`. A shorter `\s*` would leave a whitespace character where a
      digit is needed, so only the longest run can succeed. */
  predicate TailAt(s: string, e: nat) {
    e < |s| && s[e] == ',' && YearStart(s, e) + 4 <= |s|
    && AllDecimal(s[YearStart(s, e)..YearStart(s, e) + 4])
  }

  /** The greedy `.+` backs off from the right: the last position in `[lo, hi)` where the tail
      matches. */
  function LastTail(s: string, lo: nat, hi: nat): (r: Option<nat>)
    requires hi <= |s|
    ensures r.Some? ==> (lo <= r.value < hi && TailAt(s, r.value)
      && forall e :: r.value < e < hi ==> !TailAt(s, e))
    ensures r.None? ==> forall e :: lo <= e < hi ==> !TailAt(s, e)
    decreases hi
  {
    if hi <= lo then None
    else if TailAt(s, hi - 1) then Some(hi - 1)
    else LastTail(s, lo, hi - 1)
  }

  /** A match of the pattern: group 1 is `s[venueStart..comma]`, group 2 the four digits at
      `YearStart(s, comma)`. */
  datatype Capture = Capture(venueStart: nat, comma: nat)

  /** The rest of the pattern after the label, tried at `q`. The greedy `\s*` takes all the
      whitespace and `.+` runs to the end of the line, backing off to the last comma followed by
      a year. When no comma qualifies, `\s*` gives back one character, which lets `.+` be that
      single character and the comma right after the whitespace be tried. */
  function MatchAfter(s: string, q: nat): Option<Capture>
    requires q <= |s|
  {
    var start := q + SpaceRun(s, q);
    var line := LineEnd(s, start);
    var last := LastTail(s, start + 1, line);
    if last.Some? then Some(Capture(start, last.value))
    else if start > q && s[start - 1] != '\n' && TailAt(s, start) then Some(Capture(start - 1, start))
    else None
  }

  /** A match found by `MatchAfter`: group 1 is non-empty and on one line, it is followed by a
      comma, whitespace and four digits, and no later comma on that line is followed by a year
      (the greedy capture runs to the last one). */
  predicate GreedyMatch(s: string, c: Capture) {
    c.venueStart < c.comma && TailAt(s, c.comma)
    && (forall k :: c.venueStart <= k < c.comma ==> s[k] != '\n')
    && c.comma < LineEnd(s, c.venueStart)
    && forall e :: c.comma < e < LineEnd(s, c.venueStart) ==> !TailAt(s, e)
  }

  lemma {:induction false} MatchAfterSpec(s: string, q: nat)
    requires q <= |s|
    ensures MatchAfter(s, q).Some? ==> q <= MatchAfter(s, q).value.venueStart && GreedyMatch(s, MatchAfter(s, q).value)
  {
    var start := q + SpaceRun(s, q);
    var line := LineEnd(s, start);
    var last := LastTail(s, start + 1, line);
    if last.None? && start > q && s[start - 1] != '\n' && TailAt(s, start) {
      assert LineEnd(s, start - 1) == line;
    }
  }

  /** The label "Published in:" starts at `i`. */
  predicate LabelAt(s: string, i: nat) {
    i + |PublishedLabel| <= |s| && s[i..i + |PublishedLabel|] == PublishedLabel
  }

  /** `re.search`: the leftmost occurrence of the label at which the rest of the pattern matches. */
  function SearchFrom(s: string, p: nat): Option<Capture>
    requires p <= |s|
    decreases |s| - p
  {
    if p + |PublishedLabel| > |s| then None
    else if LabelAt(s, p) && MatchAfter(s, p + |PublishedLabel|).Some? then
      MatchAfter(s, p + |PublishedLabel|)
    else SearchFrom(s, p + 1)
  }

  /** `re.search` scans left to right: a match is the rest of the pattern at the leftmost label
      from `p` where it matches, and no match means no label from `p` is followed by a match. */
  lemma {:induction false} SearchFromLeftmost(s: string, p: nat)
    requires p <= |s|
    ensures var m := SearchFrom(s, p);
      m.Some? ==> exists i :: p <= i && LabelAt(s, i) && MatchAfter(s, i + |PublishedLabel|) == m
                    && forall j :: p <= j < i && LabelAt(s, j) ==> MatchAfter(s, j + |PublishedLabel|).None?
    ensures SearchFrom(s, p).None? ==>
      forall i :: p <= i && LabelAt(s, i) ==> MatchAfter(s, i + |PublishedLabel|).None?
    decreases |s| - p
  {
    if p + |PublishedLabel| <= |s| {
      if LabelAt(s, p) && MatchAfter(s, p + |PublishedLabel|).Some? {
        assert MatchAfter(s, p + |PublishedLabel|) == SearchFrom(s, p);
      } else {
        var here := !LabelAt(s, p) || MatchAfter(s, p + |PublishedLabel|).None?;
        assert here;
        assert SearchFrom(s, p) == SearchFrom(s, p + 1);
        SearchFromLeftmost(s, p + 1);
        if SearchFrom(s, p + 1).Some? {
          var i :| p + 1 <= i && LabelAt(s, i) && MatchAfter(s, i + |PublishedLabel|) == SearchFrom(s, p + 1)
            && forall j :: p + 1 <= j < i && LabelAt(s, j) ==> MatchAfter(s, j + |PublishedLabel|).None?;
          forall j | p <= j < i && LabelAt(s, j)
            ensures MatchAfter(s, j + |PublishedLabel|).None?
          {
            if j == p { assert here; }
          }
          assert p <= i && LabelAt(s, i) && MatchAfter(s, i + |PublishedLabel|) == SearchFrom(s, p);
        } else {
          forall i | p <= i && LabelAt(s, i)
            ensures MatchAfter(s, i + |PublishedLabel|).None?
          {
            if i == p { assert here; }
          }
        }
      }
    }
  }

  /** A match is preceded by the label and satisfies `GreedyMatch`. */
  lemma {:induction false} SearchFromSpec(s: string, p: nat)
    requires p <= |s|
    ensures var m := SearchFrom(s, p);
      m.Some? ==> ((exists i :: p <= i && LabelAt(s, i) && i + |PublishedLabel| <= m.value.venueStart)
                   && GreedyMatch(s, m.value))
    decreases |s| - p
  {
    if p + |PublishedLabel| <= |s| {
      if LabelAt(s, p) && MatchAfter(s, p + |PublishedLabel|).Some? {
        MatchAfterSpec(s, p + |PublishedLabel|);
        assert LabelAt(s, p);
      } else {
        SearchFromSpec(s, p + 1);
      }
    }
  }

  /** The greedy `.+` finds no comma to back off to exactly when no position in the range has
      the tail. */
  lemma {:induction false} LastTailNone(s: string, lo: nat, hi: nat)
    requires hi <= |s|
    ensures LastTail(s, lo, hi).None? <==> forall e :: lo <= e < hi ==> !TailAt(s, e)
  {
    var r := LastTail(s, lo, hi);
    if r.Some? {
      assert lo <= r.value < hi && TailAt(s, r.value);
    }
  }

  /** The rest of the pattern fails exactly when `.+` finds no comma and the backed-off `\s*`
      gives no match either. */
  lemma {:induction false} MatchAfterNoneShape(s: string, q: nat, start: nat)
    requires q <= |s| && start == q + SpaceRun(s, q)
    ensures MatchAfter(s, q).None? <==>
      LastTail(s, start + 1, LineEnd(s, start)).None?
      && !(start > q && s[start - 1] != '\n' && TailAt(s, start))
  {
  }

  /** The rest of the pattern fails exactly when no comma in the line after the whitespace is
      followed by a year, and the one-character venue of the backed-off `\s*` is not possible. */
  lemma {:induction false} MatchAfterNone(s: string, q: nat)
    requires q <= |s|
    ensures var start := q + SpaceRun(s, q);
      MatchAfter(s, q).None? <==>
        (forall e :: start + 1 <= e < LineEnd(s, start) ==> !TailAt(s, e))
        && !(start > q && s[start - 1] != '\n' && TailAt(s, start))
  {
    var start := q + SpaceRun(s, q);
    MatchAfterNoneShape(s, q, start);
    LastTailNone(s, start + 1, LineEnd(s, start));
  }

  /** The venue and year from a capture: group 1 stripped, and the four digits. */
  function CapturedVenue(s: string, c: Capture): string
    requires c.venueStart <= c.comma <= |s|
  {
    Strip(s[c.venueStart..c.comma])
  }

  function CapturedYear(s: string, c: Capture): string
    requires TailAt(s, c.comma)
  {
    s[YearStart(s, c.comma)..YearStart(s, c.comma) + 4]
  }

  /** Group 2 is four `\d` characters. */
  lemma CapturedYearDecimal(s: string, c: Capture)
    requires TailAt(s, c.comma)
    ensures |CapturedYear(s, c)| == 4 && forall k :: 0 <= k < 4 ==> IsDecimal(CapturedYear(s, c)[k])
  {
    assert AllDecimal(CapturedYear(s, c));
  }

  // ---------------------------------------------------------------------------------------
  // Venue and year

  /** The fallback of `parse_publication_item`: the label removed, the text stripped and split at
      commas; the last part is the year and the others, rejoined, the venue; a single part is
      the venue with year "Unknown". */
  function FallbackVenueYear(subtitle: string): (string, string) {
    var text := Strip(ReplaceAll(subtitle, PublishedLabel, ""));
    var parts := Split(text, ',');
    if |parts| >= 2 then (Strip(Join(parts[..|parts| - 1], ",")), Strip(parts[|parts| - 1]))
    else (text, "Unknown")
  }

  /** Venue and year of a stripped subtitle: from the pattern when it matches, else the
      fallback. */
  function VenueYear(subtitle: string): (string, string) {
    var m := SearchFrom(subtitle, 0);
    if m.Some? then
      SearchFromSpec(subtitle, 0);
      (CapturedVenue(subtitle, m.value), CapturedYear(subtitle, m.value))
    else FallbackVenueYear(subtitle)
  }

  /** When the pattern matches, the year is exactly four digits and the venue is the stripped
      text between the label and the last comma on its line that is followed by a year. */
  lemma {:induction false} VenueYearMatched(subtitle: string)
    requires SearchFrom(subtitle, 0).Some?
    ensures var c := SearchFrom(subtitle, 0).value;
      GreedyMatch(subtitle, c)
      && VenueYear(subtitle).0 == Strip(subtitle[c.venueStart..c.comma])
      && |VenueYear(subtitle).1| == 4
      && forall k :: 0 <= k < 4 ==> IsDecimal(VenueYear(subtitle).1[k])
  {
    SearchFromSpec(subtitle, 0);
    var c := SearchFrom(subtitle, 0).value;
    assert VenueYear(subtitle) == (CapturedVenue(subtitle, c), CapturedYear(subtitle, c));
    CapturedYearDecimal(subtitle, c);
  }

  /** The four characters after the comma of that subtitle are `\d` characters. */
  lemma FullwidthYearDigits(s: string)
    requires s == "Published in:A,\U{FF12}\U{FF10}\U{FF12}\U{FF10},x"
    ensures AllDecimal(s[15..19])
  {
    FullwidthDecimals(s[15..19]);
  }

  /** In a subtitle with a year in fullwidth digits, the comma before the year is the last one
      followed by a year: `\d` matches any script's decimal digits. */
  lemma FullwidthTail(s: string)
    requires s == "Published in:A,\U{FF12}\U{FF10}\U{FF12}\U{FF10},x"
    ensures LastTail(s, 14, 21) == Some(14)
  {
    assert SpaceRun(s, 15) == 0 && SpaceRun(s, 20) == 0;
    assert TailAt(s, 14) by { FullwidthYearDigits(s); }
    assert forall e :: 14 < e < 19 ==> s[e] != ',';
  }

  /** After the label the rest of the pattern matches, with the venue right after the label. */
  lemma FullwidthAfter(s: string)
    requires s == "Published in:A,\U{FF12}\U{FF10}\U{FF12}\U{FF10},x"
    ensures MatchAfter(s, 13) == Some(Capture(13, 14))
  {
    FullwidthTail(s);
    FullwidthLine(s);
    assert SpaceRun(s, 13) == 0;
  }

  /** That subtitle is one line. */
  lemma FullwidthLine(s: string)
    requires s == "Published in:A,\U{FF12}\U{FF10}\U{FF12}\U{FF10},x"
    ensures LineEnd(s, 13) == 21
  {
    assert forall k :: 13 <= k < |s| ==> s[k] != '\n';
  }

  /** The search succeeds at the label that starts the subtitle. */
  lemma FullwidthMatch(s: string)
    requires s == "Published in:A,\U{FF12}\U{FF10}\U{FF12}\U{FF10},x"
    ensures SearchFrom(s, 0) == Some(Capture(13, 14))
  {
    assert LabelAt(s, 0) by { assert s[..13] == PublishedLabel; }
    FullwidthAfter(s);
  }

  /** Group 1 of that match, stripped, is "A". */
  lemma FullwidthVenue(s: string)
    requires s == "Published in:A,\U{FF12}\U{FF10}\U{FF12}\U{FF10},x"
    ensures CapturedVenue(s, Capture(13, 14)) == "A"
  {
    assert s[13..14] == "A";
    assert StripLeft("A") == "A" && StripRight("A") == "A";
  }

  /** Group 2 of that match is the four fullwidth digits. */
  lemma FullwidthDigitsGroup(s: string)
    requires s == "Published in:A,\U{FF12}\U{FF10}\U{FF12}\U{FF10},x"
    ensures TailAt(s, 14) && CapturedYear(s, Capture(13, 14)) == "\U{FF12}\U{FF10}\U{FF12}\U{FF10}"
  {
    FullwidthTail(s);
    assert YearStart(s, 14) == 15 by { assert SpaceRun(s, 15) == 0; }
    FullwidthYearText(s);
  }

  /** The four characters after the comma of that subtitle. */
  lemma FullwidthYearText(s: string)
    requires s == "Published in:A,\U{FF12}\U{FF10}\U{FF12}\U{FF10},x"
    ensures s[15..19] == "\U{FF12}\U{FF10}\U{FF12}\U{FF10}"
  {
    var year := s[15..19];
    assert year[0] == '\U{FF12}' && year[1] == '\U{FF10}' && year[2] == '\U{FF12}' && year[3] == '\U{FF10}';
  }

  /** Python gives venue "A" and the fullwidth year for this subtitle, where the comma-split
      fallback would give venue "A,２０２０" and year "x". */
  lemma FullwidthYear(s: string)
    requires s == "Published in:A,\U{FF12}\U{FF10}\U{FF12}\U{FF10},x"
    ensures VenueYear(s) == ("A", "\U{FF12}\U{FF10}\U{FF12}\U{FF10}")
  {
    FullwidthMatch(s);
    FullwidthVenue(s);
    FullwidthDigitsGroup(s);
  }

  /** Splitting at commas and rejoining all but the last part cuts the text at its last comma. */
  lemma {:induction false} SplitLastComma(text: string)
    requires ',' in text
    ensures var parts := Split(text, ',');
      |parts| >= 2
      && var i := |Join(parts[..|parts| - 1], ",")|;
      i < |text| && text[i] == ',' && text[..i] == Join(parts[..|parts| - 1], ",")
      && text[i + 1..] == parts[|parts| - 1] && ',' !in text[i + 1..]
  {
    var parts := Split(text, ',');
    assert |parts| >= 2 by {
      var first := IndexOf(text, ',');
      assert parts == [text[..first]] + Split(text[first + 1..], ',');
    }
    assert Join(parts, ",") == text by { JoinSplit(text, ','); }
    JoinCutLast(text, parts);
    assert ',' !in parts[|parts| - 1];
  }

  /** Text joined from two or more parts with "," is cut by the last separator into the join of
      all but the last part and the last part. */
  lemma {:induction false} JoinCutLast(text: string, parts: seq<string>)
    requires |parts| >= 2 && Join(parts, ",") == text
    ensures var i := |Join(parts[..|parts| - 1], ",")|;
      i < |text| && text[i] == ',' && text[..i] == Join(parts[..|parts| - 1], ",")
      && text[i + 1..] == parts[|parts| - 1]
  {
    JoinLast(parts, ",");
    var before := Join(parts[..|parts| - 1], ",");
    var last := parts[|parts| - 1];
    assert text[..|before|] == before;
    assert text[|before| + 1..] == last;
  }

  /** Without a comma the split has the one part. */
  lemma {:induction false} SplitNoComma(text: string)
    requires ',' !in text
    ensures Split(text, ',') == [text]
  {
  }

  /** The fallback splits at the last comma: the venue is the stripped text before it and the
      year the stripped text after it (which holds no comma). Without a comma the whole text is
      the venue and the year is "Unknown". */
  lemma {:induction false} FallbackSpec(subtitle: string)
    ensures var text := Strip(ReplaceAll(subtitle, PublishedLabel, ""));
      var (venue, year) := FallbackVenueYear(subtitle);
      (',' in text ==> exists i :: 0 <= i < |text| && text[i] == ',' && ',' !in text[i + 1..]
                         && venue == Strip(text[..i]) && year == Strip(text[i + 1..]))
      && (',' !in text ==> venue == text && year == "Unknown")
  {
    var text := Strip(ReplaceAll(subtitle, PublishedLabel, ""));
    if ',' in text {
      SplitLastComma(text);
      var parts := Split(text, ',');
      var i := |Join(parts[..|parts| - 1], ",")|;
      assert FallbackVenueYear(subtitle) == (Strip(text[..i]), Strip(text[i + 1..]));
    } else {
      SplitNoComma(text);
    }
  }

  // ---------------------------------------------------------------------------------------
  // Abstract

  /** The abstract of a card: the paragraph's stripped text when it starts with "Abstract:",
      with every occurrence of that label removed and stripped again; "" otherwise. */
  function AbstractOf(paragraph: Option<string>): string {
    if paragraph.None? then ""
    else
      var text := Strip(paragraph.value);
      if StartsWith(text, AbstractLabel) then Strip(ReplaceAll(text, AbstractLabel, "")) else ""
  }

  /** Only a paragraph that starts with the label gives an abstract; the leading label is
      dropped, and the rest loses every further occurrence of the label too, so the rest is kept
      as it is only when it does not contain the label. */
  lemma {:induction false} AbstractSpec(paragraph: Option<string>)
    ensures paragraph.None? ==> AbstractOf(paragraph) == ""
    ensures paragraph.Some? && !StartsWith(Strip(paragraph.value), AbstractLabel) ==> AbstractOf(paragraph) == ""
    ensures paragraph.Some? && StartsWith(Strip(paragraph.value), AbstractLabel) ==>
      var rest := Strip(paragraph.value)[|AbstractLabel|..];
      AbstractOf(paragraph) == Strip(ReplaceAll(rest, AbstractLabel, ""))
      && (!Contains(rest, AbstractLabel) ==> AbstractOf(paragraph) == Strip(rest))
  {
    if paragraph.Some? && StartsWith(Strip(paragraph.value), AbstractLabel) {
      var text := Strip(paragraph.value);
      var rest := text[|AbstractLabel|..];
      ReplaceAllPrefix(text, AbstractLabel, "");
      assert "" + ReplaceAll(rest, AbstractLabel, "") == ReplaceAll(rest, AbstractLabel, "");
      if !Contains(rest, AbstractLabel) {
        ReplaceAllAbsent(rest, AbstractLabel, "");
      }
    }
  }

  // ---------------------------------------------------------------------------------------
  // Type

  /** The venue rules of `determine_publication_type`, in order. */
  const VenueRules: seq<(seq<string>, string)> := [
    (["conference", "symposium", "workshop", "proceedings"], "conference"),
    (["journal", "transactions", "letters"], "journal"),
    (["university"], "thesis")
  ]

  const PublicationTypes: set<string> := {"thesis", "conference", "journal"}

  /** `determine_publication_type`: "thesis" for a title mentioning a thesis or dissertation,
      then the first venue rule that applies, then "conference". */
  function DeterminePublicationType(venue: string, title: string): string {
    var titleLower := Lower(title);
    if Contains(titleLower, "thesis") || Contains(titleLower, "dissertation") then "thesis"
    else FirstMatch(Lower(venue), VenueRules, "conference")
  }

  /** The type is always thesis, conference or journal. */
  lemma {:induction false} PublicationTypeLabels(venue: string, title: string)
    ensures DeterminePublicationType(venue, title) in PublicationTypes
  {
    var titleLower := Lower(title);
    if !(Contains(titleLower, "thesis") || Contains(titleLower, "dissertation")) {
      var r := FirstMatch(Lower(venue), VenueRules, "conference");
      if r != "conference" {
        var k :| 0 <= k < |VenueRules| && r == VenueRules[k].1;
        assert k < 3;
      }
    }
  }

  /** The title rule overrides every venue rule. */
  lemma {:induction false} ThesisTitleWins(venue: string, title: string)
    requires Contains(Lower(title), "thesis") || Contains(Lower(title), "dissertation")
    ensures DeterminePublicationType(venue, title) == "thesis"
  {
  }

  /** Otherwise a conference keyword in the venue gives "conference" even when the venue also
      names a journal or a university. */
  lemma {:induction false} ConferenceVenueFirst(venue: string, title: string)
    requires !Contains(Lower(title), "thesis") && !Contains(Lower(title), "dissertation")
    requires Contains(Lower(venue), "proceedings")
    ensures DeterminePublicationType(venue, title) == "conference"
  {
    assert VenueRules[0].0[3] == "proceedings";
    assert AnyIn(Lower(venue), VenueRules[0].0);
  }

  /** A venue with a journal keyword and no conference keyword gives "journal". */
  lemma {:induction false} JournalVenue(venue: string, title: string)
    requires !Contains(Lower(title), "thesis") && !Contains(Lower(title), "dissertation")
    requires !AnyIn(Lower(venue), VenueRules[0].0)
    requires Contains(Lower(venue), "journal")
    ensures DeterminePublicationType(venue, title) == "journal"
  {
    assert VenueRules[1].0[0] == "journal";
    assert AnyIn(Lower(venue), VenueRules[1].0);
  }

  // ---------------------------------------------------------------------------------------
  // Records

  /** Title and DOI: the link's stripped text and its `href` (or "") when the title has a link,
      else the title's stripped text and no DOI. */
  function TitleAndDoi(element: TitleElement): (string, string) {
    match element.link
    case Some(link) => (Strip(link.text), link.href.GetOr(""))
    case None => (Strip(element.text), "")
  }

  /** The record for a title, DOI, venue, year and abstract: the five fixed keys, a DOI only when
      non-empty and an abstract only when non-empty. */
  function PublicationRecord(title: string, doi: string, venue: string, year: string, summary: string): map<string, Json> {
    var record := map[
      "title" := JStr(title),
      "authors" := JArr([JStr(DefaultAuthor)]),
      "venue" := JStr(venue),
      "year" := JStr(year),
      "type" := JStr(DeterminePublicationType(venue, title))];
    var withDoi := if doi != "" then record["doi" := JStr(doi)] else record;
    if summary != "" then withDoi["abstract" := JStr(summary)] else withDoi
  }

  /** What `parse_publication_item` returns for a card: `None` without a card body, a title or a
      subtitle, else the record. */
  function PublicationOf(card: Card): Option<map<string, Json>> {
    if card.body.None? || card.body.value.title.None? || card.body.value.subtitle.None? then None
    else
      var body := card.body.value;
      var (title, doi) := TitleAndDoi(body.title.value);
      var (venue, year) := VenueYear(Strip(body.subtitle.value));
      Some(PublicationRecord(title, doi, venue, year, AbstractOf(body.paragraph)))
  }

  /** `parse_publication_item`: the lookups in order, then the dict with the optional keys
      inserted. */
  method ParsePublicationItem(card: Card) returns (publication: Option<map<string, Json>>)
    ensures publication == PublicationOf(card)
  {
    if card.body.None? {
      return None;
    }
    var body := card.body.value;
    if body.title.None? {
      return None;
    }
    var title, doi;
    match body.title.value.link {
      case Some(link) =>
        title := Strip(link.text);
        doi := link.href.GetOr("");
      case None =>
        title := Strip(body.title.value.text);
        doi := "";
    }
    if body.subtitle.None? {
      return None;
    }
    var subtitleText := Strip(body.subtitle.value);
    var (venue, year) := VenueYear(subtitleText);
    var summary := AbstractOf(body.paragraph);
    var record := map[
      "title" := JStr(title),
      "authors" := JArr([JStr(DefaultAuthor)]),
      "venue" := JStr(venue),
      "year" := JStr(year),
      "type" := JStr(DeterminePublicationType(venue, title))];
    if doi != "" {
      record := record["doi" := JStr(doi)];
    }
    if summary != "" {
      record := record["abstract" := JStr(summary)];
    }
    return Some(record);
  }

  /** A record always has the title, authors, venue, year and type keys; `doi` is present
      exactly when the DOI is non-empty and `abstract` exactly when the abstract is; there is no
      other key. */
  lemma {:induction false} PublicationRecordKeys(title: string, doi: string, venue: string, year: string, summary: string)
    ensures var r := PublicationRecord(title, doi, venue, year, summary);
      "title" in r && "authors" in r && "venue" in r && "year" in r && "type" in r
      && ("doi" in r <==> doi != "") && ("abstract" in r <==> summary != "")
      && r.Keys <= {"title", "authors", "venue", "year", "type", "doi", "abstract"}
  {
  }

  /** The authors are always the single fixed author and the type one of three; the fixed keys
      hold the given values. */
  lemma {:induction false} PublicationRecordValues(title: string, doi: string, venue: string, year: string, summary: string)
    ensures var r := PublicationRecord(title, doi, venue, year, summary);
      "title" in r && r["title"] == JStr(title) && "authors" in r && r["authors"] == JArr([JStr(DefaultAuthor)])
      && "venue" in r && r["venue"] == JStr(venue) && "year" in r && r["year"] == JStr(year)
      && "type" in r && r["type"].JStr? && r["type"].s in PublicationTypes
  {
    PublicationTypeLabels(venue, title);
    var fixed := map[
      "title" := JStr(title),
      "authors" := JArr([JStr(DefaultAuthor)]),
      "venue" := JStr(venue),
      "year" := JStr(year),
      "type" := JStr(DeterminePublicationType(venue, title))];
    // The optional keys differ in length from every fixed key, so adding them keeps the rest.
    assert |"doi"| == 3 && |"abstract"| == 8;
    var withDoi := if doi != "" then fixed["doi" := JStr(doi)] else fixed;
    assert forall k :: k in fixed ==> k in withDoi && withDoi[k] == fixed[k];
    var r := if summary != "" then withDoi["abstract" := JStr(summary)] else withDoi;
    assert forall k :: k in fixed ==> k in r && r[k] == fixed[k];
  }

  /** Present optional keys hold the given DOI and abstract. */
  lemma {:induction false} PublicationRecordOptional(title: string, doi: string, venue: string, year: string, summary: string)
    ensures var r := PublicationRecord(title, doi, venue, year, summary);
      ("doi" in r ==> r["doi"] == JStr(doi)) && ("abstract" in r ==> r["abstract"] == JStr(summary))
  {
  }

  /** A card gives a record exactly when it has a card body, a title and a subtitle. */
  lemma {:induction false} PublicationOfSpec(card: Card)
    ensures PublicationOf(card).Some? <==>
      card.body.Some? && card.body.value.title.Some? && card.body.value.subtitle.Some?
  {
  }

  /** The record of a card as the JSON value that `extract_from_html` appends. */
  function PublicationJson(card: Card): Option<Json> {
    var p := PublicationOf(card);
    if p.Some? then Some(JObj(p.value)) else None
  }

  /** Every card gives a record, in card order, exactly when each has its body, title and
      subtitle; every record kept is the record of one of the cards. */
  lemma {:induction false} PublicationsSpec(cards: seq<Card>)
    ensures |FilterMap(cards, PublicationJson)| == |cards| <==>
      forall k :: 0 <= k < |cards| ==> cards[k].body.Some? && cards[k].body.value.title.Some? && cards[k].body.value.subtitle.Some?
    ensures forall y :: y in FilterMap(cards, PublicationJson) ==>
      exists k :: 0 <= k < |cards| && PublicationJson(cards[k]) == Some(y)
  {
    FilterMapAll(cards, PublicationJson);
    FilterMapFrom(cards, PublicationJson);
    forall k | 0 <= k < |cards| ensures PublicationJson(cards[k]).Some? <==>
      cards[k].body.Some? && cards[k].body.value.title.Some? && cards[k].body.value.subtitle.Some?
    {
      PublicationOfSpec(cards[k]);
    }
  }

  /** `extract_from_html` after the DOM lookups: each card parsed, the records kept in order. */
  method ExtractPublications(cards: seq<Card>) returns (publications: seq<Json>)
    ensures publications == FilterMap(cards, PublicationJson)
  {
    publications := [];
    var i := 0;
    while i < |cards|
      invariant 0 <= i <= |cards|
      invariant publications == FilterMap(cards[..i], PublicationJson)
    {
      var parsed := ParsePublicationItem(cards[i]);
      var seen := cards[..i + 1];
      assert seen[..|seen| - 1] == cards[..i] && seen[|seen| - 1] == cards[i];
      assert FilterMap(seen, PublicationJson) == FilterMap(cards[..i], PublicationJson)
        + (if PublicationJson(cards[i]).Some? then [PublicationJson(cards[i]).value] else []);
      if parsed.Some? {
        publications := publications + [JObj(parsed.value)];
      }
      i := i + 1;
    }
    assert cards[..i] == cards;
  }

  /** `merge_with_existing_data`: the `publications` key is replaced wholesale and nothing is
      written when the extracted list is empty or the file cannot be loaded. */
  method MergeWithExistingData(file: JsonFile, extracted: seq<Json>) returns (ok: bool, written: Option<Json>)
    ensures ok <==> file.Parsed? && file.content.JObj? && extracted != []
    ensures ok <==> written.Some?
    ensures ok ==> (written.value.JObj? && "publications" in written.value.fields
      && written.value.fields["publications"] == JArr(extracted))
    ensures ok ==> forall k :: k != "publications" ==>
      (k in written.value.fields <==> k in file.content.fields)
      && (k in file.content.fields ==> written.value.fields[k] == file.content.fields[k])
  {
    ok, written := ReplaceKey(file, "publications", extracted);
  }
}
