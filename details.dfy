/**
 * Field extraction from camp detail pages (utils_details.py). A page is given
 * as the text fragments the HTML lookups locate: an absent element is `None`,
 * and reading an absent element's text is the error the Python code raises.
 */
module Details {
  import opened Wrappers
  import opened Text
  import opened Calendar
  import opened Seqs

  /** One camp listing; the two days are day numbers (see module Calendar). */
  datatype Camp = Camp(
    title: string,
    desc: string,
    minAge: int,
    place: string,
    school: bool,
    firstDay: int,
    lastDay: int,
    swim: bool,
    available: bool,
    fullDay: bool,
    url: string)

  /** A value of the dictionary `Camp.to_dict` builds. */
  datatype Value = Str(s: string) | Int(i: int) | Bool(b: bool) | Date(day: int)

  const CampFields: set<string> :=
    {"title", "desc", "min_age", "place", "school", "first_day", "last_day", "swim", "available", "full_day", "url"}

  /** `Camp.to_dict`: one entry per field, keyed by the field's name. */
  function ToDict(c: Camp): (d: map<string, Value>)
    ensures d.Keys == CampFields
  {
    map[
      "title" := Str(c.title), "desc" := Str(c.desc), "min_age" := Int(c.minAge),
      "place" := Str(c.place), "school" := Bool(c.school), "first_day" := Date(c.firstDay),
      "last_day" := Date(c.lastDay), "swim" := Bool(c.swim), "available" := Bool(c.available),
      "full_day" := Bool(c.fullDay), "url" := Str(c.url)]
  }

  /** Reads a record back from a dictionary of its fields, as a DataFrame row is read back. */
  function FromDict(d: map<string, Value>): Option<Camp> {
    if CampFields <= d.Keys
       && d["title"].Str? && d["desc"].Str? && d["min_age"].Int? && d["place"].Str?
       && d["school"].Bool? && d["first_day"].Date? && d["last_day"].Date? && d["swim"].Bool?
       && d["available"].Bool? && d["full_day"].Bool? && d["url"].Str?
    then
      Some(Camp(d["title"].s, d["desc"].s, d["min_age"].i, d["place"].s, d["school"].b,
                d["first_day"].day, d["last_day"].day, d["swim"].b, d["available"].b,
                d["full_day"].b, d["url"].s))
    else None
  }

  /** `to_dict` loses nothing: the record is recovered from its dictionary. */
  lemma ToDictRoundTrip(c: Camp)
    ensures FromDict(ToDict(c)) == Some(c)
  {
  }

  /** A dictionary with exactly the field keys that reads back as a record is that record's `to_dict`. */
  lemma FromDictRoundTrip(d: map<string, Value>)
    requires d.Keys == CampFields && FromDict(d).Some?
    ensures ToDict(FromDict(d).value) == d
  {
    var e := ToDict(FromDict(d).value);
    assert e.Keys == d.Keys;
    forall k | k in d ensures e[k] == d[k] {
      assert k in CampFields;
    }
  }

  /** The parts of a detail page the lookups of utils_details.py locate. */
  datatype Page = Page(
    heading: Option<string>,      // text of the element of class 'panel-heading detail-title'
    enrollButton: bool,           // an <a class="btn btn-default1 logde"> is present (the waitlist button differs)
    title: Option<string>,        // text of <h2 class="climb-hed">
    ageText: Option<string>,      // text of <span id="mainContent_spanThisactivity">
    description: Option<string>,  // text of <p class="top-content">
    panels: seq<string>)          // texts of the <div class="panel-body"> elements, in page order

  /** The exception a page raises when a fragment is missing or malformed. */
  datatype ParseError =
    | NoTitle            // `.text` of a missing title
    | NoAgeText          // `.text` of a missing age span
    | NoAgeMatch         // `.group(1)` of a failed age search
    | NoDescription      // `.text` of a missing description
    | TooFewPanels       // `panels[1]` with fewer than two panels
    | TooFewDates        // `match[0]` or `match[1]` with fewer matches
    | InvalidDate(token: string)  // `strptime` of a token that is not a calendar date

  const AgePrefix := "This activity is Ages "
  const AgePattern := DigitsAfter(AgePrefix)
  const FullDayTime := "9:00 AM - 4:00 PM"
  const SwimWord := "swim"
  const SchoolWord := "school"

  /** `get_title`: the heading's text, or the error of reading a missing element. */
  function GetTitle(page: Page): (r: Result<string, ParseError>)
    ensures r.Success? <==> page.title.Some?
    ensures r.Success? ==> page.title == Some(r.value)
    ensures r.Failure? ==> r.error == NoTitle
  {
    match page.title
    case None => Failure(NoTitle)
    case Some(t) => Success(t)
  }

  /** `get_description`: the paragraph's text, or the error of reading a missing element. */
  function GetDescription(page: Page): (r: Result<string, ParseError>)
    ensures r.Success? <==> page.description.Some?
    ensures r.Success? ==> page.description == Some(r.value)
    ensures r.Failure? ==> r.error == NoDescription
  {
    match page.description
    case None => Failure(NoDescription)
    case Some(t) => Success(t)
  }

  /** `get_min_age` (see `GetMinAgeSpec`). */
  function GetMinAge(page: Page): (r: Result<int, ParseError>)
    ensures r.Failure? ==> r.error == NoAgeText || r.error == NoAgeMatch
    ensures r.Success? ==> r.value >= 0
  {
    match page.ageText
    case None => Failure(NoAgeText)
    case Some(text) =>
      match CaptureDigits(AgePrefix, text)
      case None => Failure(NoAgeMatch)
      case Some(digits) => Success(DigitsValue(digits))
  }

  /**
   * The minimum age is the number after the leftmost "This activity is Ages "
   * that is directly followed by a digit; without the age element, or without
   * such an occurrence, the page is rejected.
   */
  lemma GetMinAgeSpec(page: Page)
    ensures page.ageText.None? <==> GetMinAge(page) == Failure(NoAgeText)
    ensures page.ageText.Some? ==>
      (GetMinAge(page).Success? <==> exists i :: MatchesAt(AgePattern, page.ageText.value, i))
    ensures page.ageText.Some? && GetMinAge(page).Failure? ==> GetMinAge(page).error == NoAgeMatch
    ensures GetMinAge(page).Success? ==> exists i ::
      LeftmostMatch(AgePattern, page.ageText.value, i)
      && GetMinAge(page).value == DigitsValue(DigitRun(page.ageText.value, i + |AgePrefix|))
  {
    if page.ageText.Some? {
      CaptureDigitsSpec(AgePrefix, page.ageText.value);
    }
  }

  function DigitAt(s: string, i: nat): int
    requires i < |s|
  {
    s[i] as int - '0' as int
  }

  /**
   * The nested `foo` of `get_dates`: `strptime(token, '%m/%d/%Y').date()` of a
   * `DD/DD/202D` token, which fails unless month and day form a calendar date.
   */
  function ParseDate(token: string): Result<int, ParseError>
    requires |token| == DateTokenLength && MatchesAt(DateToken, token, 0)
  {
    var (year, month, day) := (TokenYear(token), TokenMonth(token), TokenDay(token));
    if IsValidDate(year, month, day) then Success(DayNumber(year, month, day)) else Failure(InvalidDate(token))
  }

  /** The fields of a `DD/DD/202D` token as `%m/%d/%Y` reads them: month, then day, then year. */
  function TokenMonth(token: string): int
    requires |token| == DateTokenLength
  {
    DigitAt(token, 0) * 10 + DigitAt(token, 1)
  }

  function TokenDay(token: string): int
    requires |token| == DateTokenLength
  {
    DigitAt(token, 3) * 10 + DigitAt(token, 4)
  }

  function TokenYear(token: string): int
    requires |token| == DateTokenLength
  {
    2020 + DigitAt(token, 9)
  }

  /** A token whose first field is a month and whose second is a day of that month is that date. */
  lemma ValidTokenAccepted(t: string)
    requires |t| == DateTokenLength && MatchesAt(DateToken, t, 0)
    requires 1 <= TokenMonth(t) <= 12 && 1 <= TokenDay(t) <= DaysInMonth(TokenYear(t), TokenMonth(t))
    ensures ParseDate(t) == Success(DayNumber(TokenYear(t), TokenMonth(t), TokenDay(t)))
    ensures 2020 <= TokenYear(t) <= 2029
  {
  }

  /** A token whose first field is not a month (00 or above 12) is rejected. */
  lemma MonthOutOfRangeRejected(t: string)
    requires |t| == DateTokenLength && MatchesAt(DateToken, t, 0)
    requires TokenMonth(t) == 0 || TokenMonth(t) > 12
    ensures ParseDate(t) == Failure(InvalidDate(t))
  {
  }

  /** A day the month does not have (00, or past the month's last day) is rejected. */
  lemma DayOutsideMonthRejected(t: string)
    requires |t| == DateTokenLength && MatchesAt(DateToken, t, 0)
    requires 1 <= TokenMonth(t) <= 12
    requires TokenDay(t) == 0 || TokenDay(t) > DaysInMonth(TokenYear(t), TokenMonth(t))
    ensures ParseDate(t) == Failure(InvalidDate(t))
  {
  }

  /** February 29 of a year 202D is accepted exactly in the leap years of that decade. */
  lemma LeapDay(c: char)
    requires '0' <= c <= '9'
    ensures ParseDate("02/29/202" + [c]).Success? <==> IsLeap(2020 + (c as int - '0' as int))
  {
    var t := "02/29/202" + [c];
    assert TokenMonth(t) == 2 && TokenDay(t) == 29 && TokenYear(t) == 2020 + (c as int - '0' as int);
  }

  /** Examples of month-first reading: July 15, and a first field of 15 that is no month. */
  lemma ParseDateIsMonthFirst()
    ensures ParseDate("07/15/2024") == Success(DayNumber(2024, 7, 15))
    ensures ParseDate("15/07/2024") == Failure(InvalidDate("15/07/2024"))
  {
  }

  /** Examples of calendar checks: February 29 in and out of a leap year, and June 31. */
  lemma ParseDateChecksCalendar()
    ensures ParseDate("02/29/2024").Success? && ParseDate("02/29/2023").Failure?
    ensures ParseDate("06/31/2025").Failure?
  {
    LeapDay('4');
    LeapDay('3');
    DayOutsideMonthRejected("06/31/2025");
  }

  /** The ten characters of a date match at `i`. */
  function TokenAt(text: string, i: int): (token: string)
    requires MatchesAt(DateToken, text, i)
    ensures |token| == DateTokenLength && MatchesAt(DateToken, token, 0)
  {
    text[i..i + DateTokenLength]
  }

  /**
   * `i` and `j` are where the first two matches of `re.findall` lie: `i` is the
   * leftmost match and `j` the leftmost one after the end of the first.
   */
  predicate FirstTwoDateTokens(text: string, i: int, j: int) {
    LeftmostMatch(DateToken, text, i) && i + DateTokenLength <= j && MatchesAt(DateToken, text, j)
    && forall k :: i + DateTokenLength <= k < j ==> !MatchesAt(DateToken, text, k)
  }

  /**
   * `get_dates`: the first two `DD/DD/202D` matches of the second panel,
   * parsed as month/day/year. Nothing requires the first to be on or before
   * the second.
   */
  function GetDates(page: Page): (r: Result<(int, int), ParseError>)
    ensures |page.panels| < 2 ==> r == Failure(TooFewPanels)
    ensures |page.panels| >= 2 && (forall i :: !MatchesAt(DateToken, page.panels[1], i)) ==> r == Failure(TooFewDates)
    ensures r.Success? ==> |page.panels| >= 2
    ensures r.Success? ==>
      exists i, j :: FirstTwoDateTokens(page.panels[1], i, j)
        && ParseDate(TokenAt(page.panels[1], i)) == Success(r.value.0)
        && ParseDate(TokenAt(page.panels[1], j)) == Success(r.value.1)
  {
    if |page.panels| < 2 then Failure(TooFewPanels)
    else
      var text := page.panels[1];
      FindSpec(DateToken, text, 0);
      match Find(DateToken, text, 0)
      case None => Failure(TooFewDates)
      case Some(i) =>
        var first := ParseDate(TokenAt(text, i));
        if first.Failure? then Failure(first.error)
        else
          FindSpec(DateToken, text, i + DateTokenLength);
          match Find(DateToken, text, i + DateTokenLength)
          case None => Failure(TooFewDates)
          case Some(j) =>
            var second := ParseDate(TokenAt(text, j));
            assert FirstTwoDateTokens(text, i, j);
            if second.Failure? then Failure(second.error) else Success((first.value, second.value))
  }

  /**
   * Once the first two matches are known, `get_dates` succeeds exactly when
   * both are calendar dates, and otherwise fails on the first that is not.
   */
  lemma GetDatesOfTokens(page: Page, i: int, j: int)
    requires |page.panels| >= 2 && FirstTwoDateTokens(page.panels[1], i, j)
    ensures var (first, second) := (ParseDate(TokenAt(page.panels[1], i)), ParseDate(TokenAt(page.panels[1], j)));
      && (GetDates(page).Success? <==> first.Success? && second.Success?)
      && (first.Failure? ==> GetDates(page) == Failure(first.error))
      && (first.Success? && second.Failure? ==> GetDates(page) == Failure(second.error))
  {
    var text := page.panels[1];
    FindSpec(DateToken, text, 0);
    var f := Find(DateToken, text, 0);
    assert f == Some(i) by {
      assert f.Some?;
      assert !(f.value < i) && !(i < f.value);
    }
    FindSpec(DateToken, text, i + DateTokenLength);
    var g := Find(DateToken, text, i + DateTokenLength);
    assert g == Some(j) by {
      assert g.Some?;
      assert !(g.value < j) && !(j < g.value);
    }
  }

  /** `is_full_day`: the literal "9:00 AM - 4:00 PM" occurs in the second panel. */
  function IsFullDay(page: Page): (r: Result<bool, ParseError>)
    ensures |page.panels| < 2 <==> r == Failure(TooFewPanels)
    ensures r.Success? ==> (r.value <==> exists i :: LiteralAt(page.panels[1], FullDayTime, false, i))
  {
    if |page.panels| < 2 then Failure(TooFewPanels)
    else Success(ContainsLiteral(page.panels[1], FullDayTime, false))
  }

  /** `get_swim`: the exact, case-sensitive substring "swim" occurs in the description. */
  function GetSwim(desc: string): (swim: bool)
    ensures swim <==> exists i :: LiteralAt(desc, SwimWord, false, i)
  {
    ContainsLiteral(desc, SwimWord, false)
  }

  /** `is_school`: "school" occurs in the place name, in any letter case. */
  function IsSchool(place: string): (school: bool)
    ensures school <==> exists i :: LiteralAt(place, SchoolWord, true, i)
  {
    ContainsLiteral(place, SchoolWord, true)
  }

  /** "swim" is matched case-sensitively: a description that says only "Swim" has no swimming. */
  lemma SwimIsCaseSensitive()
    ensures !GetSwim("Swim lessons")
    ensures GetSwim("Learn to swim")
  {
    assert LiteralAt("Learn to swim", SwimWord, false, 9);
    var d := "Swim lessons";
    assert forall i :: 0 <= i && i + 4 <= |d| ==> d[i] != 's' || d[i + 3] != 'm';
    forall i ensures !LiteralAt(d, SwimWord, false, i) {
      if 0 <= i && i + 4 <= |d| {
        assert !CharMatches(d[i + 0], SwimWord[0], false) || !CharMatches(d[i + 3], SwimWord[3], false);
      }
    }
  }

  /** "school" is matched in any letter case. */
  lemma SchoolIsCaseless()
    ensures IsSchool("Oak View Elementary SCHOOL")
    ensures !IsSchool("Frying Pan Farm Park")
  {
    assert LiteralAt("Oak View Elementary SCHOOL", SchoolWord, true, 20);
    var place := "Frying Pan Farm Park";
    assert forall i :: 0 <= i < |place| ==> place[i] != 'c' && place[i] != 'C';
    forall i ensures !LiteralAt(place, SchoolWord, true, i) {
      if 0 <= i && i + 6 <= |place| {
        assert !CharMatches(place[i + 1], SchoolWord[1], true);
      }
    }
  }

  /**
   * `try_parse_url` on the fetched page: `None` for a page whose place heading
   * is missing or empty, otherwise the record built from every fragment, or
   * the first error in the order the fields are read.
   */
  function TryParseUrl(url: string, page: Page): Result<Option<Camp>, ParseError> {
    match page.heading
    case None => Success(None)
    case Some(place) =>
      if place == "" then Success(None)
      else
        var school := IsSchool(place);
        var available := page.enrollButton;
        var title :- GetTitle(page);
        var minAge :- GetMinAge(page);
        var desc :- GetDescription(page);
        var swim := GetSwim(desc);
        var dates :- GetDates(page);
        var fullDay := IsFullDay(page).value;
        Success(Some(Camp(title, desc, minAge, place, school, dates.0, dates.1, swim, available, fullDay, url)))
  }

  /**
   * What `try_parse_url` returns: `None` exactly for a missing or empty place
   * heading; otherwise a record exactly when every lookup succeeds, whose
   * fields are the lookups' results and whose url is the link.
   */
  lemma TryParseUrlSpec(url: string, page: Page)
    ensures var r := TryParseUrl(url, page);
      && (r == Success(None) <==> page.heading.None? || page.heading.value == "")
      && (page.heading.Some? && page.heading.value != "" ==>
            (r.Success? <==> page.title.Some? && GetMinAge(page).Success? && page.description.Some?
                             && GetDates(page).Success?))
      && (r.Success? && r.value.Some? ==>
            var c := r.value.value;
            && c.url == url
            && page.heading == Some(c.place) && c.school == IsSchool(c.place)
            && c.available == page.enrollButton
            && page.title == Some(c.title)
            && GetMinAge(page) == Success(c.minAge)
            && page.description == Some(c.desc) && c.swim == GetSwim(c.desc)
            && GetDates(page) == Success((c.firstDay, c.lastDay))
            && IsFullDay(page) == Success(c.fullDay))
  {
  }

  /** `try_parse_url` of a link, the page being the one `fetch` returns for it. */
  function LinkParser(fetch: string -> Page): string -> Result<Option<Camp>, ParseError> {
    url => TryParseUrl(url, fetch(url))
  }

  /** The records a run over `urls` keeps: the present outcomes, in link order. */
  function Kept(urls: seq<string>, parse: string -> Result<Option<Camp>, ParseError>): (camps: seq<Camp>)
    ensures |camps| <= |urls|
    decreases |urls|
  {
    if urls == [] then []
    else
      var rest := Kept(urls[..|urls| - 1], parse);
      match parse(urls[|urls| - 1])
      case Success(Some(c)) => rest + [c]
      case _ => rest
  }

  /** The kept records are exactly the present outcomes, each from one of the links. */
  lemma {:induction false} KeptMembers(urls: seq<string>, parse: string -> Result<Option<Camp>, ParseError>, c: Camp)
    ensures c in Kept(urls, parse) <==> exists i :: 0 <= i < |urls| && parse(urls[i]) == Success(Some(c))
    decreases |urls|
  {
    if urls != [] {
      var n := |urls| - 1;
      var front := urls[..n];
      KeptMembers(front, parse, c);
      assert forall i :: 0 <= i < n ==> front[i] == urls[i];
    }
  }

  /**
   * Link order is kept: the records of the first `k` links come first, and a
   * run in which every link gives a record keeps one per link.
   */
  lemma {:induction false} KeptPrefix(urls: seq<string>, parse: string -> Result<Option<Camp>, ParseError>, k: nat)
    requires k <= |urls|
    ensures Kept(urls[..k], parse) <= Kept(urls, parse)
    ensures (forall i :: 0 <= i < |urls| ==> parse(urls[i]).Success? && parse(urls[i]).value.Some?) ==>
      |Kept(urls, parse)| == |urls|
    decreases |urls|
  {
    if urls != [] {
      var n := |urls| - 1;
      var front := urls[..n];
      assert forall i :: 0 <= i < n ==> front[i] == urls[i];
      if k <= n {
        assert urls[..k] == front[..k];
        KeptPrefix(front, parse, k);
      } else {
        assert urls[..k] == urls;
        KeptPrefix(front, parse, n);
      }
    }
  }

  /**
   * The loop of `fetch_details`: runs `parse` on every link in order, keeps
   * the records and skips the `None`s; the first error stops the run.
   */
  method ParseAll(urls: seq<string>, parse: string -> Result<Option<Camp>, ParseError>) returns (r: Result<seq<Camp>, ParseError>)
    ensures r.Success? <==> forall i :: 0 <= i < |urls| ==> parse(urls[i]).Success?
    ensures r.Success? ==> r.value == Kept(urls, parse)
    ensures r.Failure? ==>
      exists i :: (0 <= i < |urls| && parse(urls[i]) == Failure(r.error)
                   && forall j :: 0 <= j < i ==> parse(urls[j]).Success?)
  {
    var camps: seq<Camp> := [];
    for i := 0 to |urls|
      invariant forall j :: 0 <= j < i ==> parse(urls[j]).Success?
      invariant camps == Kept(urls[..i], parse)
    {
      var parsed := parse(urls[i]);
      if parsed.Failure? {
        return Failure(parsed.error);
      }
      assert urls[..i + 1][..i] == urls[..i];
      if parsed.value.Some? {
        camps := camps + [parsed.value.value];
      }
    }
    assert urls[..|urls|] == urls;
    return Success(camps);
  }

  /**
   * `fetch_details` over the fetched pages: the records of the links whose
   * pages hold a place, in link order, provided no page raises; otherwise the
   * error of the first page that does.
   */
  method FetchDetails(urls: seq<string>, fetch: string -> Page) returns (r: Result<seq<Camp>, ParseError>)
    ensures r.Success? <==> forall i :: 0 <= i < |urls| ==> TryParseUrl(urls[i], fetch(urls[i])).Success?
    ensures r.Success? ==> r.value == Kept(urls, LinkParser(fetch)) && |r.value| <= |urls|
    ensures r.Failure? ==>
      exists i :: (0 <= i < |urls| && TryParseUrl(urls[i], fetch(urls[i])) == Failure(r.error)
                   && forall j :: 0 <= j < i ==> TryParseUrl(urls[j], fetch(urls[j])).Success?)
  {
    r := ParseAll(urls, LinkParser(fetch));
  }
}
