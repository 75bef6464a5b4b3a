/**
 * The record table of utils_report.py: the three derived columns, added to a
 * frame in place, and the seven row filters.
 */
module Report {
  import opened Wrappers
  import opened Text
  import opened Seqs
  import opened Details

  /** The error `add_commute` or `add_session` raises. */
  datatype ReportError =
    | MissingPlace(place: string)  // KeyError of `commutes[x.place]`
    | NoSession(url: string)       // `.group(1)` of a failed `session_id=` search

  /**
   * The commutes read from commutes.json: place to whole minutes, a JSON
   * `null` (a commute that could not be computed) being `None`.
   */
  type Commutes = map<string, Option<int>>

  /** A row of the report frame: a record with its three derived columns. */
  datatype Row = Row(camp: Camp, commute: Option<int>, numDays: int, session: string)

  // ---------------------------------------------------------------------------
  // Derived columns

  /**
   * The `commute` column: `commutes[place]` of every row, in row order, or the
   * KeyError of the first row whose place is not a key.
   */
  function CommuteColumn(camps: seq<Camp>, commutes: Commutes): (r: Result<seq<Option<int>>, ReportError>)
    ensures r.Success? <==> forall i :: 0 <= i < |camps| ==> camps[i].place in commutes
    ensures r.Success? ==> |r.value| == |camps| && forall i :: 0 <= i < |camps| ==> r.value[i] == commutes[camps[i].place]
    ensures r.Failure? ==>
      exists k :: (0 <= k < |camps| && camps[k].place !in commutes && r.error == MissingPlace(camps[k].place)
                   && forall j :: 0 <= j < k ==> camps[j].place in commutes)
    decreases |camps|
  {
    if camps == [] then Success([])
    else
      var n := |camps| - 1;
      var front := camps[..n];
      assert forall i :: 0 <= i < n ==> front[i] == camps[i];
      match CommuteColumn(front, commutes)
      case Failure(e) => Failure(e)
      case Success(col) =>
        if camps[n].place in commutes then Success(col + [commutes[camps[n].place]])
        else Failure(MissingPlace(camps[n].place))
  }

  /** The column fails on the first row whose place is missing. */
  lemma CommuteColumnFailsAt(camps: seq<Camp>, commutes: Commutes, i: nat)
    requires i < |camps| && camps[i].place !in commutes
    requires forall j :: 0 <= j < i ==> camps[j].place in commutes
    ensures CommuteColumn(camps, commutes) == Failure(MissingPlace(camps[i].place))
  {
    var c := CommuteColumn(camps, commutes);
    var k :| 0 <= k < |camps| && camps[k].place !in commutes && c.error == MissingPlace(camps[k].place)
      && forall j :: 0 <= j < k ==> camps[j].place in commutes;
    assert !(k < i) && !(i < k);
  }

  /**
   * `add_num_days`' `(last_day - first_day + timedelta(days=1)).days`.
   * Nothing orders the two days, so a record whose last day comes before its
   * first gets zero or a negative count.
   */
  function NumDays(c: Camp): int {
    c.lastDay - c.firstDay + 1
  }

  /** The `n` consecutive day numbers starting at `first`. */
  function DayRange(first: int, n: nat): (days: set<int>)
    ensures forall d :: d in days <==> first <= d < first + n
    decreases n
  {
    if n == 0 then {} else DayRange(first, n - 1) + {first + n - 1}
  }

  /** A range of `n` days holds `n` days. */
  lemma {:induction false} DayRangeSize(first: int, n: nat)
    ensures |DayRange(first, n)| == n
    decreases n
  {
    if n > 0 {
      var front := DayRange(first, n - 1);
      DayRangeSize(first, n - 1);
      assert first + n - 1 !in front;
      assert DayRange(first, n) == front + {first + n - 1};
    }
  }

  /**
   * The inclusive span is the number of days from the first to the last day:
   * one when they are equal, and at least one whenever the last day is not
   * before the first.
   */
  lemma NumDaysCountsCampDays(c: Camp)
    requires c.firstDay <= c.lastDay
    ensures var days := DayRange(c.firstDay, NumDays(c));
      && (forall d :: d in days <==> c.firstDay <= d <= c.lastDay)
      && NumDays(c) == |days| >= 1
    ensures c.firstDay == c.lastDay ==> NumDays(c) == 1
  {
    DayRangeSize(c.firstDay, NumDays(c));
  }

  /** The `num_days` column. */
  function NumDaysColumn(camps: seq<Camp>): (col: seq<int>)
    ensures |col| == |camps| && forall i :: 0 <= i < |camps| ==> col[i] == NumDays(camps[i])
  {
    seq(|camps|, i requires 0 <= i < |camps| => NumDays(camps[i]))
  }

  const SessionPrefix := "session_id="

  /** `parse_session`, `None` standing for the failed search whose `.group(1)` raises. */
  function ParseSession(url: string): (r: Option<string>)
    ensures r.Some? ==> |r.value| > 0 && AllDigits(r.value)
  {
    CaptureDigits(SessionPrefix, url)
  }

  /**
   * The session id is the maximal digit run after the leftmost "session_id="
   * that is directly followed by a digit, and is missing exactly when the url
   * holds no such occurrence.
   */
  lemma ParseSessionSpec(url: string)
    ensures ParseSession(url).None? <==> forall i :: !MatchesAt(DigitsAfter(SessionPrefix), url, i)
    ensures ParseSession(url).Some? ==>
      exists i :: LeftmostMatch(DigitsAfter(SessionPrefix), url, i) && ParseSession(url).value == DigitRun(url, i + |SessionPrefix|)
  {
    CaptureDigitsSpec(SessionPrefix, url);
  }

  /** The `session` column, or the error of the first row whose url holds no session id. */
  function SessionColumn(camps: seq<Camp>): (r: Result<seq<string>, ReportError>)
    ensures r.Success? <==> forall i :: 0 <= i < |camps| ==> ParseSession(camps[i].url).Some?
    ensures r.Success? ==> |r.value| == |camps| && forall i :: 0 <= i < |camps| ==> Some(r.value[i]) == ParseSession(camps[i].url)
    ensures r.Failure? ==>
      exists k :: (0 <= k < |camps| && ParseSession(camps[k].url).None? && r.error == NoSession(camps[k].url)
                   && forall j :: 0 <= j < k ==> ParseSession(camps[j].url).Some?)
    decreases |camps|
  {
    if camps == [] then Success([])
    else
      var n := |camps| - 1;
      var front := camps[..n];
      assert forall i :: 0 <= i < n ==> front[i] == camps[i];
      match SessionColumn(front)
      case Failure(e) => Failure(e)
      case Success(col) =>
        match ParseSession(camps[n].url)
        case Some(s) => Success(col + [s])
        case None => Failure(NoSession(camps[n].url))
  }

  /** The column fails on the first row whose url holds no session id. */
  lemma {:induction false} SessionColumnFailsAt(camps: seq<Camp>, i: nat)
    requires i < |camps| && ParseSession(camps[i].url).None?
    requires forall j :: 0 <= j < i ==> ParseSession(camps[j].url).Some?
    ensures SessionColumn(camps) == Failure(NoSession(camps[i].url))
    decreases |camps|
  {
    var n := |camps| - 1;
    var front := camps[..n];
    assert forall j :: 0 <= j < n ==> front[j] == camps[j];
    if i < n {
      SessionColumnFailsAt(front, i);
    }
  }

  /** The rows of a frame whose three columns are all present. */
  function Zip(camps: seq<Camp>, commute: seq<Option<int>>, numDays: seq<int>, session: seq<string>): (rows: seq<Row>)
    requires |commute| == |camps| && |numDays| == |camps| && |session| == |camps|
    ensures |rows| == |camps|
    ensures forall i :: 0 <= i < |camps| ==> rows[i] == Row(camps[i], commute[i], numDays[i], session[i])
  {
    seq(|camps|, i requires 0 <= i < |camps| => Row(camps[i], commute[i], numDays[i], session[i]))
  }

  /**
   * The DataFrame the report pipeline works on: the records as read back from
   * camps.pkl, and the derived columns once they have been added.
   */
  class Frame {
    var camps: seq<Camp>
    var commute: Option<seq<Option<int>>>
    var numDays: Option<seq<int>>
    var session: Option<seq<string>>

    /** Every column present has one entry per row. */
    ghost predicate Valid()
      reads this
    {
      && (commute.Some? ==> |commute.value| == |camps|)
      && (numDays.Some? ==> |numDays.value| == |camps|)
      && (session.Some? ==> |session.value| == |camps|)
    }

    /** `pd.read_pickle('camps.pkl')`: the records, without derived columns. */
    constructor(camps: seq<Camp>)
      ensures Valid()
      ensures this.camps == camps && commute == None && numDays == None && session == None
    {
      this.camps := camps;
      commute := None;
      numDays := None;
      session := None;
    }

    /**
     * `add_commute`: sets the `commute` column to `commutes[place]` row by
     * row. A place without a key raises, and the frame is left as it was.
     */
    method AddCommute(commutes: Commutes) returns (r: Outcome<ReportError>)
      requires Valid()
      modifies this
      ensures Valid()
      ensures camps == old(camps) && numDays == old(numDays) && session == old(session)
      ensures r.Pass? <==> CommuteColumn(camps, commutes).Success?
      ensures r.Pass? ==> commute == Some(CommuteColumn(camps, commutes).value)
      ensures r.Fail? ==> r.error == CommuteColumn(camps, commutes).error && commute == old(commute)
    {
      var col: seq<Option<int>> := [];
      for i := 0 to |camps|
        invariant CommuteColumn(camps[..i], commutes) == Success(col)
        invariant forall j :: 0 <= j < i ==> camps[j].place in commutes
      {
        assert camps[..i + 1][..i] == camps[..i];
        var place := camps[i].place;
        if place !in commutes {
          CommuteColumnFailsAt(camps, commutes, i);
          return Fail(MissingPlace(place));
        }
        col := col + [commutes[place]];
      }
      assert camps[..|camps|] == camps;
      commute := Some(col);
      return Pass;
    }

    /** `add_num_days`: sets the `num_days` column to each row's inclusive span. */
    method AddNumDays()
      requires Valid()
      modifies this
      ensures Valid()
      ensures camps == old(camps) && commute == old(commute) && session == old(session)
      ensures numDays == Some(NumDaysColumn(camps))
    {
      var col: seq<int> := [];
      for i := 0 to |camps|
        invariant |col| == i && forall j :: 0 <= j < i ==> col[j] == NumDays(camps[j])
      {
        col := col + [camps[i].lastDay - camps[i].firstDay + 1];
      }
      assert col == NumDaysColumn(camps);
      numDays := Some(col);
    }

    /**
     * `add_session`: sets the `session` column to each url's session id. A url
     * without one raises, and the frame is left as it was.
     */
    method AddSession() returns (r: Outcome<ReportError>)
      requires Valid()
      modifies this
      ensures Valid()
      ensures camps == old(camps) && commute == old(commute) && numDays == old(numDays)
      ensures r.Pass? <==> SessionColumn(camps).Success?
      ensures r.Pass? ==> session == Some(SessionColumn(camps).value)
      ensures r.Fail? ==> r.error == SessionColumn(camps).error && session == old(session)
    {
      var col: seq<string> := [];
      for i := 0 to |camps|
        invariant SessionColumn(camps[..i]) == Success(col)
        invariant forall j :: 0 <= j < i ==> ParseSession(camps[j].url).Some?
      {
        assert camps[..i + 1][..i] == camps[..i];
        var url := camps[i].url;
        var parsed := ParseSession(url);
        if parsed.None? {
          SessionColumnFailsAt(camps, i);
          return Fail(NoSession(url));
        }
        col := col + [parsed.value];
      }
      assert camps[..|camps|] == camps;
      session := Some(col);
      return Pass;
    }
  }

  // ---------------------------------------------------------------------------
  // Filters

  /** The seven filters of utils_report.py with their parameters. */
  datatype Filter =
    | CommuteFilter(maxCommute: int)     // filter_commute
    | SchoolsFilter(removeSchools: bool) // filter_schools
    | FullFilter(showFull: bool)         // filter_full
    | AgeFilter(minAge: int)             // filter_age
    | HalfDayFilter(removeHalfDay: bool) // filter_half_day
    | FirstDayFilter(day: int)           // filter_first_day
    | LastDayFilter(day: int)            // filter_last_day

  /**
   * The row test behind each filter's boolean mask. A `null` commute compares
   * false with the maximum, so such a row is dropped; a filter switched off by
   * its flag passes every row.
   */
  predicate Passes(f: Filter, r: Row) {
    match f
    case CommuteFilter(maxCommute) => r.commute.Some? && r.commute.value <= maxCommute
    case SchoolsFilter(removeSchools) => removeSchools ==> !r.camp.school
    case FullFilter(showFull) => !showFull ==> r.camp.available
    case AgeFilter(minAge) => r.camp.minAge <= minAge
    case HalfDayFilter(removeHalfDay) => removeHalfDay ==> r.camp.fullDay
    case FirstDayFilter(day) => r.camp.firstDay == day
    case LastDayFilter(day) => r.camp.lastDay == day
  }

  /**
   * `df[mask]`: the rows that pass, each kept where it was. As a subsequence
   * it keeps exactly the passing rows of the input.
   */
  function Apply(rows: seq<Row>, f: Filter): (kept: seq<Row>)
    ensures IsSubsequence(kept, rows)
    ensures forall x :: x in kept <==> x in rows && Passes(f, x)
    decreases |rows|
  {
    if rows == [] then []
    else
      var rest := Apply(rows[1..], f);
      assert forall x :: x in rows <==> x == rows[0] || x in rows[1..];
      if Passes(f, rows[0]) then [rows[0]] + rest else rest
  }

  /** Filtering drops the failing copies of a row and keeps every copy of a passing one. */
  lemma {:induction false} ApplyCount(rows: seq<Row>, f: Filter, x: Row)
    ensures multiset(Apply(rows, f))[x] == if Passes(f, x) then multiset(rows)[x] else 0
    decreases |rows|
  {
    if rows != [] {
      ApplyCount(rows[1..], f, x);
      assert rows == [rows[0]] + rows[1..];
    }
  }

  /** A filter whose test every row passes returns its input unchanged. */
  lemma {:induction false} ApplyAllPass(rows: seq<Row>, f: Filter)
    requires forall i :: 0 <= i < |rows| ==> Passes(f, rows[i])
    ensures Apply(rows, f) == rows
    decreases |rows|
  {
    if rows != [] {
      ApplyAllPass(rows[1..], f);
    }
  }

  /** Filtering twice keeps the same rows as filtering once. */
  lemma ApplyIdempotent(rows: seq<Row>, f: Filter)
    ensures Apply(Apply(rows, f), f) == Apply(rows, f)
  {
    var kept := Apply(rows, f);
    forall i | 0 <= i < |kept| ensures Passes(f, kept[i]) {
      assert kept[i] in kept;
    }
    ApplyAllPass(kept, f);
  }

  /** Any two filters commute. */
  lemma {:induction false} ApplyCommutes(rows: seq<Row>, f: Filter, g: Filter)
    ensures Apply(Apply(rows, f), g) == Apply(Apply(rows, g), f)
    decreases |rows|
  {
    if rows != [] {
      ApplyCommutes(rows[1..], f, g);
    }
  }

  /** `filter_commute`: the rows whose commute is at most `maxCommute` minutes. */
  function FilterCommute(rows: seq<Row>, maxCommute: int): (kept: seq<Row>)
    ensures IsSubsequence(kept, rows)
    ensures forall x :: x in kept <==> x in rows && x.commute.Some? && x.commute.value <= maxCommute
  {
    Apply(rows, CommuteFilter(maxCommute))
  }

  /** `filter_schools`: with the flag set, the rows whose place is not a school; otherwise all rows. */
  function FilterSchools(rows: seq<Row>, removeSchools: bool): (kept: seq<Row>)
    ensures IsSubsequence(kept, rows)
    ensures forall x :: x in kept <==> x in rows && (removeSchools ==> !x.camp.school)
    ensures !removeSchools ==> kept == rows
  {
    if removeSchools then Apply(rows, SchoolsFilter(true)) else SubsequenceOfSelf(rows); rows
  }

  /** `filter_full`: all rows when full camps are shown, otherwise the available ones. */
  function FilterFull(rows: seq<Row>, showFull: bool): (kept: seq<Row>)
    ensures IsSubsequence(kept, rows)
    ensures forall x :: x in kept <==> x in rows && (!showFull ==> x.camp.available)
    ensures showFull ==> kept == rows
  {
    if showFull then SubsequenceOfSelf(rows); rows else Apply(rows, FullFilter(false))
  }

  /** `filter_age`: the rows whose minimum age is at most `minAge` (inclusive). */
  function FilterAge(rows: seq<Row>, minAge: int): (kept: seq<Row>)
    ensures IsSubsequence(kept, rows)
    ensures forall x :: x in kept <==> x in rows && x.camp.minAge <= minAge
  {
    Apply(rows, AgeFilter(minAge))
  }

  /** `filter_half_day`: with the flag set, the full-day rows; otherwise all rows. */
  function FilterHalfDay(rows: seq<Row>, removeHalfDay: bool): (kept: seq<Row>)
    ensures IsSubsequence(kept, rows)
    ensures forall x :: x in kept <==> x in rows && (removeHalfDay ==> x.camp.fullDay)
    ensures !removeHalfDay ==> kept == rows
  {
    if removeHalfDay then Apply(rows, HalfDayFilter(true)) else SubsequenceOfSelf(rows); rows
  }

  /** `filter_first_day`: the rows starting on exactly `day`. */
  function FilterFirstDay(rows: seq<Row>, day: int): (kept: seq<Row>)
    ensures IsSubsequence(kept, rows)
    ensures forall x :: x in kept <==> x in rows && x.camp.firstDay == day
  {
    Apply(rows, FirstDayFilter(day))
  }

  /** `filter_last_day`: the rows ending on exactly `day`. */
  function FilterLastDay(rows: seq<Row>, day: int): (kept: seq<Row>)
    ensures IsSubsequence(kept, rows)
    ensures forall x :: x in kept <==> x in rows && x.camp.lastDay == day
  {
    Apply(rows, LastDayFilter(day))
  }

  /**
   * Each of the seven functions is its filter applied to the rows, so the
   * idempotence and commutation of `Apply` carry over to them.
   */
  lemma FiltersAreApply(rows: seq<Row>, maxCommute: int, flag: bool, age: int, day: int)
    ensures FilterCommute(rows, maxCommute) == Apply(rows, CommuteFilter(maxCommute))
    ensures FilterSchools(rows, flag) == Apply(rows, SchoolsFilter(flag))
    ensures FilterFull(rows, flag) == Apply(rows, FullFilter(flag))
    ensures FilterAge(rows, age) == Apply(rows, AgeFilter(age))
    ensures FilterHalfDay(rows, flag) == Apply(rows, HalfDayFilter(flag))
    ensures FilterFirstDay(rows, day) == Apply(rows, FirstDayFilter(day))
    ensures FilterLastDay(rows, day) == Apply(rows, LastDayFilter(day))
  {
    if !flag {
      ApplyAllPass(rows, SchoolsFilter(false));
      ApplyAllPass(rows, HalfDayFilter(false));
    } else {
      ApplyAllPass(rows, FullFilter(true));
    }
  }
}
