/** `PublicationsFetcher` of Python/fetch_publications.py: renders fetched publications as the
    cards of the publications page, orders them by year, and puts the cards into the
    publication list of the page.

    The Google Scholar fetch and the file reads and writes are not modelled: the fetched records
    and the page text are inputs. */
module PublicationsFetcher {
  import opened Wrappers
  import opened Text
  import opened Seqs
  import opened Ranking

  /** The `authors` entry of a record: a string, or a list of names. */
  datatype Authors = AuthorText(text: string) | AuthorNames(names: seq<string>)

  /** One fetched publication record (its `abstract` entry is `summary` here). */
  datatype FetchedPub = FetchedPub(
    title: string, authors: Authors, venue: string, year: string,
    summary: string, url: string, citations: int)

  /** Python's `ValueError` raised by `int()`, with the literal it could not read. */
  datatype ValueError = ValueError(literal: string)

  // ---------------------------------------------------------------------------------------
  // One card

  // The card template, line by line: its indentation and its markup.
  const Indent16: string := "                "
  const Indent20: string := Indent16 + "    "
  const Indent24: string := Indent20 + "    "
  const Indent28: string := Indent24 + "    "
  const CardLine1: string := Indent16 + "<li class=\"list-group-item card mb-3" + " card-hover-effect\">"
  const CardLine2: string := Indent20 + "<div class=\"card-body\">"
  const TitleOpen: string := Indent24 + "<h5 class=\"card-title\">"
  const TitleClose: string := "</h5>"
  const CardLine4: string := Indent24 + "<h6 class=\"card-subtitle" + " mb-2 text-muted\">"
  const AuthorsOpen: string := Indent28 + "<strong>Authors:</strong> "
  const AuthorsClose: string := "<br>"
  const VenueOpen: string := Indent28 + "Published in: "
  const CardLine7: string := Indent24 + "</h6>"
  const AbstractOpen: string := Indent24 + "<p class=\"card-text\">" + "<strong>Abstract:</strong> "
  const AbstractClose: string := "</p>"
  const CitationsOpen: string := Indent24 + "<p class=\"card-text\">" + "<small class=\"text-muted\">Citations: "
  const CitationsClose: string := "</small></p>"
  const CardEnd1: string := Indent20 + "</div>"
  const CardEnd2: string := Indent16 + "</li>"

  /** A string is used as is; a list of names is joined with ", ". */
  function AuthorsText(a: Authors): string {
    match a
    case AuthorText(t) => t
    case AuthorNames(ns) => Join(ns, ", ")
  }

  /** The title, wrapped in a link opening in a new tab when the url is non-empty. */
  function TitleHtml(p: FetchedPub): string {
    if p.url != "" then "<a href=\"" + p.url + "\" target=\"_blank\">" + p.title + "</a>" else p.title
  }

  function TitleLine(p: FetchedPub): string {
    TitleOpen + TitleHtml(p) + TitleClose
  }

  function AuthorsLine(p: FetchedPub): string {
    AuthorsOpen + AuthorsText(p.authors) + AuthorsClose
  }

  function VenueLine(p: FetchedPub): string {
    VenueOpen + p.venue + ", " + p.year
  }

  function AbstractLine(summary: string): string {
    AbstractOpen + summary + AbstractClose
  }

  function CitationsLine(citations: int): string {
    CitationsOpen + IntToString(citations) + CitationsClose
  }

  /** The seven lines of the first f-string of a card: the list item, the card body, the title
      and the subtitle. */
  function HeadLines(p: FetchedPub): seq<string> {
    [CardLine1, CardLine2, TitleLine(p), CardLine4, AuthorsLine(p), VenueLine(p), CardLine7]
  }

  /** The lines of a card: the head, the abstract paragraph when the abstract is non-empty, the
      citations paragraph when there are citations, and the closing tags. */
  function CardLines(p: FetchedPub): seq<string> {
    HeadLines(p)
    + (if p.summary != "" then [AbstractLine(p.summary)] else [])
    + (if p.citations > 0 then [CitationsLine(p.citations)] else [])
    + [CardEnd1, CardEnd2]
  }

  /** A whole card: its lines separated by line breaks. */
  function Card(p: FetchedPub): string {
    Join(CardLines(p), "\n")
  }

  /** No field that a card shows holds a line break. */
  predicate SingleLineFields(p: FetchedPub) {
    NoNewline(p.title) && NoNewline(p.url) && NoNewline(AuthorsText(p.authors))
    && NoNewline(p.venue) && NoNewline(p.year) && NoNewline(p.summary)
  }

  lemma IndentSingleLine()
    ensures NoNewline(Indent16) && NoNewline(Indent20) && NoNewline(Indent24) && NoNewline(Indent28)
  {
    assert NoNewline(Indent16);
    assert NoNewline(Indent20);
    assert NoNewline(Indent24);
  }

  /** The fixed text of the card template holds no line break inside a line. */
  lemma HeadTemplateSingleLine()
    ensures NoNewline(CardLine1) && NoNewline(CardLine2) && NoNewline(TitleOpen) && NoNewline(TitleClose)
  {
    IndentSingleLine();
  }

  lemma SubtitleTemplateSingleLine()
    ensures NoNewline(CardLine4) && NoNewline(AuthorsOpen) && NoNewline(AuthorsClose)
    ensures NoNewline(VenueOpen) && NoNewline(CardLine7)
  {
    IndentSingleLine();
  }

  lemma ParagraphTemplateSingleLine()
    ensures NoNewline(AbstractOpen) && NoNewline(AbstractClose)
    ensures NoNewline(CitationsOpen) && NoNewline(CitationsClose)
    ensures NoNewline(CardEnd1) && NoNewline(CardEnd2)
  {
    IndentSingleLine();
  }

  /** No line of `ls` holds a line break. */
  predicate LinesSingle(ls: seq<string>) {
    forall k :: 0 <= k < |ls| ==> NoNewline(ls[k])
  }

  lemma {:induction false} LinesSingleConcat(a: seq<string>, b: seq<string>)
    requires LinesSingle(a) && LinesSingle(b)
    ensures LinesSingle(a + b)
  {
    forall k | 0 <= k < |a + b| ensures NoNewline((a + b)[k]) {
      if k >= |a| {
        assert (a + b)[k] == b[k - |a|];
      }
    }
  }

  lemma {:induction false} HeadLinesSingle(p: FetchedPub)
    requires SingleLineFields(p)
    ensures LinesSingle(HeadLines(p))
  {
    HeadTemplateSingleLine();
    SubtitleTemplateSingleLine();
    assert NoNewline(TitleLine(p)) && NoNewline(AuthorsLine(p)) && NoNewline(VenueLine(p));
  }

  lemma {:induction false} TailLinesSingle(p: FetchedPub)
    requires SingleLineFields(p)
    ensures LinesSingle((if p.summary != "" then [AbstractLine(p.summary)] else [])
      + (if p.citations > 0 then [CitationsLine(p.citations)] else []) + [CardEnd1, CardEnd2])
  {
    var digits := NatToString(if p.citations < 0 then -p.citations else p.citations);
    assert '\n' !in digits by {
      assert forall k :: 0 <= k < |digits| ==> IsDigit(digits[k]);
    }
    ParagraphTemplateSingleLine();
    assert NoNewline(AbstractLine(p.summary)) && NoNewline(CitationsLine(p.citations));
    var abs := if p.summary != "" then [AbstractLine(p.summary)] else [];
    var cit := if p.citations > 0 then [CitationsLine(p.citations)] else [];
    LinesSingleConcat(abs, cit);
    LinesSingleConcat(abs + cit, [CardEnd1, CardEnd2]);
  }

  /** Splitting a card at its line breaks gives its lines: the abstract line is there exactly
      when the abstract is non-empty and the citations line exactly when there are citations. */
  lemma {:induction false} CardSplit(p: FetchedPub)
    requires SingleLineFields(p)
    ensures Split(Card(p), '\n') == CardLines(p)
    ensures |Split(Card(p), '\n')| == 9 + (if p.summary != "" then 1 else 0) + (if p.citations > 0 then 1 else 0)
  {
    var abs := if p.summary != "" then [AbstractLine(p.summary)] else [];
    var cit := if p.citations > 0 then [CitationsLine(p.citations)] else [];
    var tail := abs + cit + [CardEnd1, CardEnd2];
    HeadLinesSingle(p);
    TailLinesSingle(p);
    LinesSingleConcat(HeadLines(p), tail);
    assert CardLines(p) == HeadLines(p) + tail;
    SplitJoin(CardLines(p), '\n');
  }

  /** The title is linked exactly when the url is non-empty, and the link points at the url. */
  lemma {:induction false} TitleHtmlSpec(p: FetchedPub)
    ensures TitleHtml(p) == p.title <==> p.url == ""
    ensures p.url != "" ==> StartsWith(TitleHtml(p), "<a href=\"" + p.url + "\"")
  {
    if p.url != "" {
      var prefix := "<a href=\"" + p.url + "\"";
      assert TitleHtml(p) == prefix + " target=\"_blank\">" + p.title + "</a>";
      assert TitleHtml(p)[..|prefix|] == prefix;
    }
  }

  /** Authors given as a string appear verbatim; a list of names is separated by ", ", one more
      name adding ", " and that name. */
  lemma {:induction false} AuthorsTextSpec(t: string, names: seq<string>, name: string)
    ensures AuthorsText(AuthorText(t)) == t
    ensures AuthorsText(AuthorNames([])) == ""
    ensures AuthorsText(AuthorNames([name])) == name
    ensures names != [] ==> AuthorsText(AuthorNames(names + [name])) == AuthorsText(AuthorNames(names)) + ", " + name
  {
    if names != [] {
      JoinSnoc(names, name, ", ");
    }
  }

  // ---------------------------------------------------------------------------------------
  // The list of cards

  /** The cards of the publications, in order. */
  function Cards(pubs: seq<FetchedPub>): (r: seq<string>)
    ensures |r| == |pubs|
  {
    if pubs == [] then [] else Cards(pubs[..|pubs| - 1]) + [Card(pubs[|pubs| - 1])]
  }

  /** The html of `generate_publications_html`: the cards joined with line breaks. */
  function PublicationsHtml(pubs: seq<FetchedPub>): string {
    Join(Cards(pubs), "\n")
  }

  /** One more publication adds its card at the end. */
  lemma {:induction false} CardsPrefix(pubs: seq<FetchedPub>, i: nat)
    requires i < |pubs|
    ensures Cards(pubs[..i + 1]) == Cards(pubs[..i]) + [Card(pubs[i])]
  {
    assert pubs[..i + 1][..i] == pubs[..i];
  }

  /** `generate_publications_html`: builds each card piece by piece, collects the cards and joins
      them with line breaks. */
  method GeneratePublicationsHtml(pubs: seq<FetchedPub>) returns (html: string)
    ensures html == PublicationsHtml(pubs)
  {
    var items: seq<string> := [];
    var i := 0;
    while i < |pubs|
      invariant 0 <= i <= |pubs|
      invariant items == Cards(pubs[..i])
    {
      var card := BuildCard(pubs[i]);
      CardsPrefix(pubs, i);
      items := items + [card];
      i := i + 1;
    }
    assert pubs[..i] == pubs;
    html := Join(items, "\n");
  }

  /** The body of the loop of `generate_publications_html`: the head f-string, then each
      optional paragraph appended, then the closing tags. */
  method BuildCard(pub: FetchedPub) returns (card: string)
    ensures card == Card(pub)
  {
    var lines := HeadLines(pub);
    card := Join(lines, "\n");
    if pub.summary != "" {
      JoinSnoc(lines, AbstractLine(pub.summary), "\n");
      card := card + ("\n" + AbstractLine(pub.summary));
      lines := lines + [AbstractLine(pub.summary)];
    }
    if pub.citations > 0 {
      JoinSnoc(lines, CitationsLine(pub.citations), "\n");
      card := card + ("\n" + CitationsLine(pub.citations));
      lines := lines + [CitationsLine(pub.citations)];
    }
    JoinSnoc2(lines, CardEnd1, CardEnd2, "\n");
    card := card + ("\n" + CardEnd1 + "\n" + CardEnd2);
    assert lines + [CardEnd1] + [CardEnd2] == CardLines(pub);
  }

  /** All the lines of the cards, card after card. */
  function AllLines(pubs: seq<FetchedPub>): seq<string> {
    if pubs == [] then [] else AllLines(pubs[..|pubs| - 1]) + CardLines(pubs[|pubs| - 1])
  }

  lemma {:induction false} PublicationsHtmlJoin(pubs: seq<FetchedPub>)
    requires pubs != []
    ensures PublicationsHtml(pubs) == Join(AllLines(pubs), "\n")
    ensures AllLines(pubs) != []
    decreases |pubs|
  {
    var init := pubs[..|pubs| - 1];
    var last := pubs[|pubs| - 1];
    if init == [] {
      assert Cards(pubs) == [Card(last)];
      assert AllLines(pubs) == CardLines(last);
    } else {
      PublicationsHtmlJoin(init);
      JoinSnoc(Cards(init), Card(last), "\n");
      JoinConcat(AllLines(init), CardLines(last), "\n");
    }
  }

  /** One card per publication, in input order: the page fragment splits into the lines of the
      first card, then those of the second, and so on; no publications give the empty string. */
  lemma {:induction false} PublicationsHtmlLines(pubs: seq<FetchedPub>)
    requires forall k :: 0 <= k < |pubs| ==> SingleLineFields(pubs[k])
    ensures pubs == [] ==> PublicationsHtml(pubs) == ""
    ensures pubs != [] ==> Split(PublicationsHtml(pubs), '\n') == AllLines(pubs)
  {
    if pubs != [] {
      PublicationsHtmlJoin(pubs);
      AllLinesSingle(pubs);
      SplitJoin(AllLines(pubs), '\n');
    }
  }

  lemma {:induction false} AllLinesSingle(pubs: seq<FetchedPub>)
    requires forall k :: 0 <= k < |pubs| ==> SingleLineFields(pubs[k])
    ensures forall k :: 0 <= k < |AllLines(pubs)| ==> '\n' !in AllLines(pubs)[k]
    decreases |pubs|
  {
    if pubs != [] {
      var init := pubs[..|pubs| - 1];
      var last := pubs[|pubs| - 1];
      AllLinesSingle(init);
      CardSplit(last);
    }
  }

  // ---------------------------------------------------------------------------------------
  // Ordering by year

  predicate AllDigits(s: string) {
    forall k :: 0 <= k < |s| ==> IsDigit(s[k])
  }

  /** The value of a string of decimal digits. */
  function DigitsValue(s: string): nat
    requires AllDigits(s)
  {
    if s == [] then 0 else 10 * DigitsValue(s[..|s| - 1]) + (s[|s| - 1] as int - '0' as int)
  }

  /** `int(s)`: surrounding whitespace is ignored, then an optional sign and at least one digit;
      anything else raises `ValueError`. */
  function ParseInt(s: string): Result<int, ValueError> {
    var t := Strip(s);
    var body := if t != [] && (t[0] == '-' || t[0] == '+') then t[1..] else t;
    if body != [] && AllDigits(body) then
      var v: int := DigitsValue(body);
      Ok(if t[0] == '-' then -v else v)
    else Err(ValueError(s))
  }

  /** The sort key `int(x['year']) if x['year'] else 0`. */
  function YearKey(year: string): Result<int, ValueError> {
    if year == "" then Ok(0) else ParseInt(year)
  }

  lemma {:induction false} DigitsNatToString(n: nat)
    ensures AllDigits(NatToString(n)) && DigitsValue(NatToString(n)) == n
  {
    var r := NatToString(n);
    if n >= 10 {
      DigitsNatToString(n / 10);
      assert r[..|r| - 1] == NatToString(n / 10);
    } else {
      assert r[..0] == [];
    }
  }

  /** `int(str(n)) == n`: the key of a year written as a number is that number, and an empty
      year counts as 0. */
  lemma {:induction false} YearKeyRoundTrip(n: int)
    ensures YearKey(IntToString(n)) == Ok(n)
    ensures YearKey("") == Ok(0)
  {
    var d := NatToString(if n < 0 then -n else n);
    DigitsNatToString(if n < 0 then -n else n);
    var s := IntToString(n);
    assert !IsSpace(s[0]) && !IsSpace(s[|s| - 1]);
    assert StripLeft(s) == s;
    assert Strip(s) == s;
    if n < 0 {
      assert s[1..] == d;
    }
  }

  /** A year with a character that is neither whitespace, a sign nor a digit has no key. */
  lemma {:induction false} YearKeyRejects(year: string, k: nat)
    requires k < |year| && !IsSpace(year[k]) && !IsDigit(year[k]) && year[k] != '-' && year[k] != '+'
    ensures YearKey(year) == Err(ValueError(year))
  {
    var t := Strip(year);
    StripLeftSpec(year);
    StripRightSpec(StripLeft(year));
    var lo := |year| - |StripLeft(year)|;
    assert lo <= k;
    assert StripLeft(year)[k - lo] == year[k];
    assert k - lo < |t|;
    assert t[k - lo] == year[k];
  }

  /** The records paired with their keys, or the `ValueError` of the first year that is not a
      number (the keys are computed in list order before sorting). */
  function Keyed(pubs: seq<FetchedPub>): Result<seq<Scored<FetchedPub>>, ValueError> {
    if pubs == [] then Ok([])
    else
      var key :- YearKey(pubs[0].year);
      var rest :- Keyed(pubs[1..]);
      Ok([(pubs[0], key)] + rest)
  }

  /** `publications.sort(key=..., reverse=True)`: newest first, equal keys in fetch order. */
  function SortByYear(pubs: seq<FetchedPub>): Result<seq<FetchedPub>, ValueError> {
    var keyed :- Keyed(pubs);
    Ok(Items(SortDesc(keyed)))
  }

  /** Every year of `pubs` has a key. */
  predicate YearsParse(pubs: seq<FetchedPub>) {
    forall k :: 0 <= k < |pubs| ==> YearKey(pubs[k].year).Ok?
  }

  /** The keys are computed exactly when every year parses, and pair each record with its key;
      otherwise the error is that of the first year that does not parse. */
  lemma {:induction false} KeyedSpec(pubs: seq<FetchedPub>)
    ensures Keyed(pubs).Ok? <==> YearsParse(pubs)
    ensures Keyed(pubs).Ok? ==> (|Keyed(pubs).value| == |pubs|
      && forall k :: 0 <= k < |pubs| ==> Keyed(pubs).value[k] == (pubs[k], YearKey(pubs[k].year).value))
    ensures Keyed(pubs).Err? ==>
      exists k :: 0 <= k < |pubs| && YearKey(pubs[k].year) == Err(Keyed(pubs).error)
        && forall m :: 0 <= m < k ==> YearKey(pubs[m].year).Ok?
    decreases |pubs|
  {
    if pubs != [] {
      KeyedSpec(pubs[1..]);
      assert forall k :: 1 <= k < |pubs| ==> pubs[1..][k - 1] == pubs[k];
      if YearKey(pubs[0].year).Ok? && Keyed(pubs[1..]).Err? {
        var k :| 0 <= k < |pubs[1..]| && YearKey(pubs[1..][k].year) == Err(Keyed(pubs[1..]).error)
          && forall m :: 0 <= m < k ==> YearKey(pubs[1..][m].year).Ok?;
        assert YearKey(pubs[k + 1].year) == Err(Keyed(pubs).error);
        assert forall m :: 0 <= m < k + 1 ==> YearKey(pubs[m].year).Ok? by {
          forall m | 1 <= m < k + 1 ensures YearKey(pubs[m].year).Ok? {
            assert pubs[1..][m - 1] == pubs[m];
          }
        }
      }
    }
  }

  /** The sort fails exactly when some year is not a number, with the error of the first one. */
  lemma {:induction false} SortByYearError(pubs: seq<FetchedPub>)
    ensures SortByYear(pubs).Ok? <==> YearsParse(pubs)
    ensures SortByYear(pubs).Err? ==>
      exists k :: 0 <= k < |pubs| && YearKey(pubs[k].year) == Err(SortByYear(pubs).error)
        && forall m :: 0 <= m < k ==> YearKey(pubs[m].year).Ok?
  {
    KeyedSpec(pubs);
  }

  /** Every entry of the sorted pairs carries its record's key. */
  lemma {:induction false} SortedKeys(pubs: seq<FetchedPub>)
    requires YearsParse(pubs)
    ensures Keyed(pubs).Ok?
    ensures var sorted := SortDesc(Keyed(pubs).value);
      forall k :: 0 <= k < |sorted| ==> YearKey(sorted[k].0.year) == Ok(sorted[k].1)
  {
    KeyedSpec(pubs);
    var keyed := Keyed(pubs).value;
    SortDescSpec(keyed);
    var sorted := SortDesc(keyed);
    forall k | 0 <= k < |sorted| ensures YearKey(sorted[k].0.year) == Ok(sorted[k].1) {
      assert sorted[k] in multiset(keyed);
      var m :| 0 <= m < |keyed| && keyed[m] == sorted[k];
    }
  }

  /** When every year parses, the result is a permutation of the records whose keys never
      increase: newest first. */
  lemma {:induction false} SortByYearSpec(pubs: seq<FetchedPub>)
    requires YearsParse(pubs)
    ensures SortByYear(pubs).Ok?
    ensures var r := SortByYear(pubs).value;
      |r| == |pubs| && multiset(r) == multiset(pubs)
      && (forall k :: 0 <= k < |r| ==> YearKey(r[k].year).Ok?)
      && forall i, j :: 0 <= i < j < |r| ==> YearKey(r[i].year).value >= YearKey(r[j].year).value
  {
    KeyedSpec(pubs);
    var keyed := Keyed(pubs).value;
    SortDescSpec(keyed);
    SortDescItems(keyed);
    SortedKeys(pubs);
    assert Items(keyed) == pubs;
  }

  /** The records with key `v`. */
  function HasYear(v: int): FetchedPub -> bool {
    (p: FetchedPub) => YearKey(p.year) == Ok(v)
  }

  /** Stability: the records with the same key keep their fetch order. */
  lemma {:induction false} SortByYearStable(pubs: seq<FetchedPub>, v: int)
    requires YearsParse(pubs)
    ensures SortByYear(pubs).Ok?
    ensures Filter(SortByYear(pubs).value, HasYear(v)) == Filter(pubs, HasYear(v))
  {
    KeyedSpec(pubs);
    var keyed := Keyed(pubs).value;
    SortedKeys(pubs);
    var sorted := SortDesc(keyed);
    SortDescStable(keyed, v);
    ItemsWithScore(sorted, v, HasYear(v));
    ItemsWithScore(keyed, v, HasYear(v));
    assert Items(keyed) == pubs;
  }

  // ---------------------------------------------------------------------------------------
  // Putting the cards into the page

  const ListOpen: string := "<ul class=\"timeline list-group list-group-flush\">"
  const ListClose: string := "</ul>"

  /** The lazy `(.*?)(close)` under `re.DOTALL`: the first position of `t` where `close` starts. */
  function FirstClose(t: string, close: string): (r: Option<nat>)
    ensures r.Some? ==> r.value + |close| <= |t|
    decreases |t|
  {
    if StartsWith(t, close) then Some(0)
    else if t == [] then None
    else match FirstClose(t[1..], close)
      case None => None
      case Some(k) => Some(k + 1)
  }

  /** `FirstClose` finds the first `close`, and none when there is none. */
  lemma {:induction false} FirstCloseSpec(t: string, close: string)
    ensures FirstClose(t, close).Some? ==> (StartsWith(t[FirstClose(t, close).value..], close)
      && forall m :: 0 <= m < FirstClose(t, close).value ==> !StartsWith(t[m..], close))
    ensures FirstClose(t, close).None? ==> forall m :: 0 <= m <= |t| ==> !StartsWith(t[m..], close)
    decreases |t|
  {
    if !StartsWith(t, close) && t != [] {
      FirstCloseSpec(t[1..], close);
      assert forall m :: 1 <= m <= |t| ==> t[m..] == t[1..][m - 1..];
      assert t[0..] == t;
    } else if t == [] {
      assert t[0..] == t;
    }
  }

  /** The pattern `(open)(.*?)(close)` tried at `i`: where the match ends (just after the first
      `close` following `open`), or none when `open` does not stand at `i` or no `close`
      follows it. */
  function MatchEnd(s: string, i: nat, open: string, close: string): (r: Option<nat>)
    ensures r.Some? ==> i + |open| + |close| <= r.value <= |s|
  {
    if i <= |s| && StartsWith(s[i..], open) then
      match FirstClose(s[i + |open|..], close)
      case None => None
      case Some(k) => Some(i + |open| + k + |close|)
    else None
  }

  lemma {:induction false} SuffixOfSuffix(s: string, j: nat, m: nat)
    requires j <= m <= |s|
    ensures s[m..] == s[j..][m - j..]
  {
  }

  lemma {:induction false} CloseFound(s: string, j: nat, close: string)
    requires j <= |s| && FirstClose(s[j..], close).Some?
    ensures var f := FirstClose(s[j..], close).value;
      s[j + f..j + f + |close|] == close && forall m :: j <= m < j + f ==> !StartsWith(s[m..], close)
  {
    var t := s[j..];
    var f := FirstClose(t, close).value;
    FirstCloseSpec(t, close);
    assert s[j + f..j + f + |close|] == t[f..][..|close|];
    forall m | j <= m < j + f ensures !StartsWith(s[m..], close) {
      SuffixOfSuffix(s, j, m);
    }
  }

  lemma {:induction false} CloseMissing(s: string, j: nat, close: string)
    requires j <= |s| && FirstClose(s[j..], close).None?
    ensures forall m :: j <= m <= |s| ==> !StartsWith(s[m..], close)
  {
    FirstCloseSpec(s[j..], close);
    forall m | j <= m <= |s| ensures !StartsWith(s[m..], close) {
      SuffixOfSuffix(s, j, m);
    }
  }

  /** A match from `i` to `e` is `open`, then text holding no `close`, then `close`; when `open`
      stands at `i` but there is no match, no `close` follows it. */
  lemma {:induction false} MatchEndSpec(s: string, i: nat, open: string, close: string)
    ensures MatchEnd(s, i, open, close).Some? ==>
      var e := MatchEnd(s, i, open, close).value;
      s[i..i + |open|] == open && s[e - |close|..e] == close
      && forall m :: i + |open| <= m < e - |close| ==> !StartsWith(s[m..], close)
    ensures MatchEnd(s, i, open, close).None? && i <= |s| && StartsWith(s[i..], open) ==>
      forall m :: i + |open| <= m <= |s| ==> !StartsWith(s[m..], close)
  {
    if i <= |s| && StartsWith(s[i..], open) {
      assert s[i..i + |open|] == s[i..][..|open|];
      if FirstClose(s[i + |open|..], close).Some? {
        CloseFound(s, i + |open|, close);
      } else {
        CloseMissing(s, i + |open|, close);
      }
    }
  }

  /** Where `re.sub`, scanning from `from`, finds its next match: its start and its end. */
  function NextMatch(s: string, open: string, close: string, from: nat): (r: Option<(nat, nat)>)
    ensures r.Some? ==> from <= r.value.0 && MatchEnd(s, r.value.0, open, close) == Some(r.value.1)
    decreases |s| - from
  {
    if from > |s| then None
    else match MatchEnd(s, from, open, close)
      case Some(e) => Some((from, e))
      case None => NextMatch(s, open, close, from + 1)
  }

  /** `NextMatch` is the leftmost match from `from`, and there is none when it finds none. */
  lemma {:induction false} NextMatchSpec(s: string, open: string, close: string, from: nat)
    ensures NextMatch(s, open, close, from).Some? ==>
      forall k :: from <= k < NextMatch(s, open, close, from).value.0 ==> MatchEnd(s, k, open, close).None?
    ensures NextMatch(s, open, close, from).None? ==>
      forall k :: from <= k <= |s| ==> MatchEnd(s, k, open, close).None?
    decreases |s| - from
  {
    if from <= |s| && MatchEnd(s, from, open, close).None? {
      NextMatchSpec(s, open, close, from + 1);
    }
  }

  /** `re.sub(r'(open)(.*?)(close)', replacement, s, flags=re.DOTALL)`: the text before the
      leftmost match is copied, the match becomes `open`, `body` and `close`, and the text after
      it is processed the same way; without a match the text is copied. */
  function SubstituteLists(s: string, open: string, close: string, body: string): string
    requires open != []
    decreases |s|
  {
    match NextMatch(s, open, close, 0)
    case None => s
    case Some((i, e)) => s[..i] + open + body + close + SubstituteLists(s[e..], open, close, body)
  }

  /** Text with no match is left unchanged. */
  lemma {:induction false} SubstituteNone(s: string, open: string, close: string, body: string)
    requires open != []
    requires forall k :: 0 <= k < |s| ==> MatchEnd(s, k, open, close).None?
    ensures SubstituteLists(s, open, close, body) == s
  {
    if NextMatch(s, open, close, 0).Some? {
      assert false;
    }
  }

  /** At the leftmost match, from `i` to `e` (see `MatchEndSpec`), the text before it is kept,
      `open` and `close` are kept, what lies between them is replaced by `body`, and the text
      after the match is processed the same way. */
  lemma {:induction false} SubstituteFirst(s: string, open: string, close: string, body: string, i: nat, e: nat)
    requires open != []
    requires MatchEnd(s, i, open, close) == Some(e)
    requires forall k :: 0 <= k < i ==> MatchEnd(s, k, open, close).None?
    ensures SubstituteLists(s, open, close, body) ==
      s[..i] + open + body + close + SubstituteLists(s[e..], open, close, body)
  {
    NextMatchSpec(s, open, close, 0);
    SubstituteAt(s, open, close, body, i, e);
  }

  lemma {:induction false} SubstituteAt(s: string, open: string, close: string, body: string, i: nat, e: nat)
    requires open != [] && NextMatch(s, open, close, 0) == Some((i, e))
    ensures SubstituteLists(s, open, close, body) ==
      s[..i] + open + body + close + SubstituteLists(s[e..], open, close, body)
  {
  }

  /** The body that `replacement = '\1\n{new}\n            \3'` puts between the tags. */
  function ListBody(newHtml: string): string {
    "\n" + newHtml + "\n            "
  }

  /** `update_publications_html` without the file access: the new cards go into every publication
      list block of the page. */
  method UpdatePublicationsHtml(content: string, pubs: seq<FetchedPub>) returns (updated: string)
    ensures updated == SubstituteLists(content, ListOpen, ListClose, ListBody(PublicationsHtml(pubs)))
  {
    var newHtml := GeneratePublicationsHtml(pubs);
    updated := SubstituteLists(content, ListOpen, ListClose, ListBody(newHtml));
  }
}
