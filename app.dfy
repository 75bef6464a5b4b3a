/**
 * The three commands of camp.py, minus their file checks and I/O:
 * `details` (records and the places list), `commute` (one estimate per place)
 * and `report` (derived columns, the filter chain and the sort by commute).
 */
module App {
  import opened Wrappers
  import opened Text
  import opened Seqs
  import opened Details
  import opened Report
  import opened Commute

  // ---------------------------------------------------------------------------
  // details

  /** What the `details` command raises. */
  datatype DetailsError =
    | PageError(error: ParseError)  // raised while parsing a page
    | NoPlaceColumn                 // `df['place']` of the frame built from no records

  /** The `place` column of the frame built from the records, in record order. */
  function PlaceColumn(camps: seq<Camp>): (column: seq<string>)
    ensures |column| == |camps| && forall i :: 0 <= i < |camps| ==> column[i] == camps[i].place
  {
    seq(|camps|, i requires 0 <= i < |camps| => camps[i].place)
  }

  /**
   * `df['place'].unique().tolist()` of the frame built from the records: the
   * places in order of first appearance, each once. With no records the frame
   * has no columns and the lookup raises.
   */
  function Places(camps: seq<Camp>): (r: Option<seq<string>>)
    ensures r.None? <==> camps == []
    ensures r.Some? ==> NoDuplicates(r.value)
    ensures r.Some? ==> forall p :: p in r.value <==> exists i :: 0 <= i < |camps| && camps[i].place == p
  {
    if camps == [] then None
    else
      var column := PlaceColumn(camps);
      assert forall i :: 0 <= i < |camps| ==> camps[i].place in column by {
        forall i | 0 <= i < |camps| ensures camps[i].place in column {
          assert column[i] == camps[i].place;
        }
      }
      Some(Unique(column))
  }

  /**
   * First-appearance order: the places of the first `k` records are listed
   * first, in the same order.
   */
  lemma PlacesKeepFirstAppearance(camps: seq<Camp>, k: nat)
    requires 0 < k <= |camps|
    ensures Places(camps[..k]).Some? && Places(camps).Some?
    ensures Places(camps[..k]).value <= Places(camps).value
  {
    var column := PlaceColumn(camps);
    assert Places(camps) == Some(Unique(column));
    assert PlaceColumn(camps[..k]) == column[..k];
    assert Places(camps[..k]) == Some(Unique(column[..k]));
    UniquePrefix(column, k);
  }

  /** The loop writing places.txt: each place, then a newline. */
  method WritePlaces(places: seq<string>) returns (text: string)
    ensures text == JoinLines(places)
  {
    text := [];
    for i := 0 to |places|
      invariant text == JoinLines(places[..i])
    {
      assert places[..i + 1] == places[..i] + [places[i]];
      JoinLinesSnoc(places[..i], places[i]);
      text := text + places[i] + "\n";
    }
    assert places[..|places|] == places;
  }

  /**
   * `details`: the records of the links, in order, and the text of places.txt.
   * A page that raises stops the command, and so does a run that keeps no record.
   */
  method DetailsCommand(urls: seq<string>, fetch: string -> Page) returns (r: Result<(seq<Camp>, string), DetailsError>)
    ensures r.Success? <==>
      (forall i :: 0 <= i < |urls| ==> TryParseUrl(urls[i], fetch(urls[i])).Success?)
      && Kept(urls, LinkParser(fetch)) != []
    ensures r.Success? ==>
      && r.value.0 == Kept(urls, LinkParser(fetch))
      && r.value.1 == JoinLines(Places(r.value.0).value)
  {
    var camps := FetchDetails(urls, fetch);
    if camps.Failure? {
      return Failure(PageError(camps.error));
    }
    var places := Places(camps.value);
    if places.None? {
      return Failure(NoPlaceColumn);
    }
    var text := WritePlaces(places.value);
    return Success((camps.value, text));
  }

  /**
   * A places list whose entries are stripped and hold no newline survives the
   * round trip through places.txt: reading the lines back and stripping them
   * gives the list.
   */
  lemma PlacesFileRoundTrip(places: seq<string>)
    requires forall i :: 0 <= i < |places| ==> IsStripped(places[i]) && '\n' !in places[i]
    ensures StrippedLines(JoinLines(places)) == places
  {
    var lines := ReadLines(JoinLines(places));
    ReadJoinedLines(places);
    forall i | 0 <= i < |places| ensures Strip(lines[i]) == places[i] {
      StripNewline(places[i]);
    }
  }

  // ---------------------------------------------------------------------------
  // commute

  /** `list(map(lambda x: x.strip(), f.readlines()))`. */
  function StrippedLines(text: string): (camps: seq<string>)
    ensures |camps| == |ReadLines(text)|
    ensures forall i :: 0 <= i < |camps| ==> camps[i] == Strip(ReadLines(text)[i])
  {
    var lines := ReadLines(text);
    seq(|lines|, i requires 0 <= i < |lines| => Strip(lines[i]))
  }

  /**
   * The loop of `commute` over the stripped places: one entry per place,
   * holding `calculate_commute` of that place from `home`. A repeated place
   * rewrites its entry with the same value.
   */
  method CommutesFor(camps: seq<string>, home: string, today: int, key: Option<string>, respond: Params -> Response)
    returns (commutes: Commutes)
    ensures forall k :: k in commutes <==> k in camps
    ensures forall k :: k in commutes ==> commutes[k] == CommuteMinutes(k, home, today, key, respond)
  {
    commutes := map[];
    for i := 0 to |camps|
      invariant forall k :: k in commutes <==> k in camps[..i]
      invariant forall k :: k in commutes ==> commutes[k] == CommuteMinutes(k, home, today, key, respond)
    {
      var minutes, _ := CalculateCommute(camps[i], home, today, key, respond);
      assert camps[..i + 1] == camps[..i] + [camps[i]];
      commutes := commutes[camps[i] := minutes];
    }
    assert camps[..|camps|] == camps;
  }

  /** `commute` from `home`: the places of places.txt stripped, then one estimate per place. */
  method BuildCommutes(text: string, home: string, today: int, key: Option<string>, respond: Params -> Response)
    returns (commutes: Commutes)
    ensures forall k :: k in commutes <==> k in StrippedLines(text)
    ensures forall k :: k in commutes ==> commutes[k] == CommuteMinutes(k, home, today, key, respond)
  {
    commutes := CommutesFor(StrippedLines(text), home, today, key, respond);
  }

  /**
   * `commute(home_address)` as written: `calculate_commute` is called with
   * the place alone, so every leg starts or ends at the default home whatever
   * `home_address` is.
   */
  method CommuteCommandAsWritten(text: string, homeAddress: string, today: int, key: Option<string>, respond: Params -> Response)
    returns (commutes: Commutes)
    ensures forall k :: k in commutes <==> k in StrippedLines(text)
    ensures forall k :: k in commutes ==> commutes[k] == CommuteMinutes(k, DefaultHome, today, key, respond)
  {
    commutes := BuildCommutes(text, DefaultHome, today, key, respond);
  }

  /** `commute(home_address)` with the address passed on as the home of every leg. */
  method CommuteCommand(text: string, homeAddress: string, today: int, key: Option<string>, respond: Params -> Response)
    returns (commutes: Commutes)
    ensures forall k :: k in commutes <==> k in StrippedLines(text)
    ensures forall k :: k in commutes ==> commutes[k] == CommuteMinutes(k, homeAddress, today, key, respond)
  {
    commutes := BuildCommutes(text, homeAddress, today, key, respond);
  }

  /**
   * Any address other than the default is lost as written: the first leg of
   * every place is routed from the default home, whereas with the address
   * passed on it is routed from the address.
   */
  lemma HomeAddressIgnored(camp: string, homeAddress: string, today: int, key: Option<string>)
    requires homeAddress != DefaultHome
    ensures CommuteLegs(camp, DefaultHome, CommuteDay(today), key)[0].origins != homeAddress
    ensures CommuteLegs(camp, homeAddress, CommuteDay(today), key)[0].origins == homeAddress
  {
  }

  // ---------------------------------------------------------------------------
  // report

  /** The options of `report`, with the command's defaults. */
  datatype ReportParams = ReportParams(
    firstDay: int,
    lastDay: int,
    minAge: int := 5,
    maxCommute: int := 120,
    removeHalfDay: bool := true,
    removeSchools: bool := true,
    showFull: bool := false)

  /** The options left unset take the command's defaults. */
  lemma ReportDefaults(firstDay: int, lastDay: int)
    ensures var p := ReportParams(firstDay, lastDay);
      && p.firstDay == firstDay && p.lastDay == lastDay
      && p.minAge == 5 && p.maxCommute == 120
      && p.removeHalfDay && p.removeSchools && !p.showFull
  {
  }

  /** The filters of the `report` chain, in the order it applies them. */
  function Filters(p: ReportParams): seq<Filter> {
    [ CommuteFilter(p.maxCommute), SchoolsFilter(p.removeSchools), AgeFilter(p.minAge),
      HalfDayFilter(p.removeHalfDay), FullFilter(p.showFull), FirstDayFilter(p.firstDay),
      LastDayFilter(p.lastDay) ]
  }

  /** Applies the filters one after the other. */
  function ApplyAll(rows: seq<Row>, fs: seq<Filter>): seq<Row>
    decreases |fs|
  {
    if fs == [] then rows else ApplyAll(Apply(rows, fs[0]), fs[1..])
  }

  /** A row passes every filter of the chain. */
  predicate PassesAll(fs: seq<Filter>, x: Row) {
    forall i :: 0 <= i < |fs| ==> Passes(fs[i], x)
  }

  /**
   * A chain of filters keeps exactly the rows that pass every filter, and
   * every copy of such a row.
   */
  lemma {:induction false} ApplyAllSpec(rows: seq<Row>, fs: seq<Filter>, x: Row)
    ensures x in ApplyAll(rows, fs) <==> x in rows && PassesAll(fs, x)
    ensures multiset(ApplyAll(rows, fs))[x] == if PassesAll(fs, x) then multiset(rows)[x] else 0
    decreases |fs|
  {
    if fs != [] {
      ApplyCount(rows, fs[0], x);
      ApplyAllSpec(Apply(rows, fs[0]), fs[1..], x);
      assert PassesAll(fs, x) <==> Passes(fs[0], x) && PassesAll(fs[1..], x) by {
        assert forall i :: 0 < i < |fs| ==> fs[1..][i - 1] == fs[i];
      }
    }
  }

  /** The row survives every filter the options switch on. */
  predicate Active(p: ReportParams, x: Row) {
    && x.camp.firstDay == p.firstDay
    && x.camp.lastDay == p.lastDay
    && x.commute.Some? && x.commute.value <= p.maxCommute
    && x.camp.minAge <= p.minAge
    && (p.removeSchools ==> !x.camp.school)
    && (p.removeHalfDay ==> x.camp.fullDay)
    && (!p.showFull ==> x.camp.available)
  }

  lemma ActiveIsPassesAll(p: ReportParams, x: Row)
    ensures Active(p, x) <==> PassesAll(Filters(p), x)
  {
    var fs := Filters(p);
    assert (Passes(fs[0], x) && Passes(fs[1], x) && Passes(fs[2], x) && Passes(fs[3], x)
            && Passes(fs[4], x) && Passes(fs[5], x) && Passes(fs[6], x)) <==> PassesAll(fs, x);
  }

  /** The `.pipe` chain of `report` after the three derived columns (camp.py order). */
  function FilterChain(rows: seq<Row>, p: ReportParams): seq<Row> {
    var r1 := FilterCommute(rows, p.maxCommute);
    var r2 := FilterSchools(r1, p.removeSchools);
    var r3 := FilterAge(r2, p.minAge);
    var r4 := FilterHalfDay(r3, p.removeHalfDay);
    var r5 := FilterFull(r4, p.showFull);
    var r6 := FilterFirstDay(r5, p.firstDay);
    FilterLastDay(r6, p.lastDay)
  }

  /** One step of a chain: the first filter, then the rest. */
  lemma ApplyAllStep(rows: seq<Row>, fs: seq<Filter>, k: nat)
    requires k < |fs|
    ensures ApplyAll(rows, fs[k..]) == ApplyAll(Apply(rows, fs[k]), fs[k + 1..])
  {
    assert fs[k..][1..] == fs[k + 1..];
  }

  /** The chain is its seven filters applied in order. */
  lemma FilterChainIsApplyAll(rows: seq<Row>, p: ReportParams)
    ensures FilterChain(rows, p) == ApplyAll(rows, Filters(p))
  {
    var fs := Filters(p);
    var r1 := FilterCommute(rows, p.maxCommute);
    var r2 := FilterSchools(r1, p.removeSchools);
    var r3 := FilterAge(r2, p.minAge);
    var r4 := FilterHalfDay(r3, p.removeHalfDay);
    var r5 := FilterFull(r4, p.showFull);
    var r6 := FilterFirstDay(r5, p.firstDay);
    FiltersAreApply(rows, p.maxCommute, p.removeSchools, p.minAge, p.firstDay);
    FiltersAreApply(r1, p.maxCommute, p.removeSchools, p.minAge, p.firstDay);
    FiltersAreApply(r3, p.maxCommute, p.removeHalfDay, p.minAge, p.firstDay);
    FiltersAreApply(r4, p.maxCommute, p.showFull, p.minAge, p.firstDay);
    FiltersAreApply(r6, p.maxCommute, p.showFull, p.minAge, p.lastDay);
    assert fs[0..] == fs;
    ApplyAllStep(rows, fs, 0);
    ApplyAllStep(r1, fs, 1);
    ApplyAllStep(r2, fs, 2);
    ApplyAllStep(r3, fs, 3);
    ApplyAllStep(r4, fs, 4);
    ApplyAllStep(r5, fs, 5);
    ApplyAllStep(r6, fs, 6);
    assert fs[7..] == [];
  }

  /** `CommuteLe(a, b)`: `a` may come before `b` in ascending commute order, missing commutes last. */
  predicate CommuteLe(a: Row, b: Row) {
    match (a.commute, b.commute)
    case (Some(x), Some(y)) => x <= y
    case (_, None) => true
    case (None, Some(_)) => false
  }

  predicate SortedByCommute(rows: seq<Row>) {
    forall i, j :: 0 <= i < j < |rows| ==> CommuteLe(rows[i], rows[j])
  }

  /** Inserts a row before the first row it may precede. */
  function Insert(x: Row, rows: seq<Row>): (r: seq<Row>)
    ensures multiset(r) == multiset(rows) + multiset{x}
    decreases |rows|
  {
    if rows == [] then [x]
    else if CommuteLe(x, rows[0]) then [x] + rows
    else
      assert rows == [rows[0]] + rows[1..];
      [rows[0]] + Insert(x, rows[1..])
  }

  /** Insertion keeps a sorted sequence sorted. */
  lemma {:induction false} InsertSorted(x: Row, rows: seq<Row>)
    requires SortedByCommute(rows)
    ensures SortedByCommute(Insert(x, rows))
    decreases |rows|
  {
    if rows != [] && !CommuteLe(x, rows[0]) {
      var rest := Insert(x, rows[1..]);
      InsertSorted(x, rows[1..]);
      assert rows == [rows[0]] + rows[1..];
      forall k | 0 <= k < |rest| ensures CommuteLe(rows[0], rest[k]) {
        assert rest[k] in multiset(rest);
        if rest[k] != x {
          assert rest[k] in rows[1..];
        }
      }
    }
  }

  /**
   * `sort_values('commute')`: the rows in ascending commute order, missing
   * commutes last. Which of two rows with equal commutes comes first is not
   * specified.
   */
  function SortByCommute(rows: seq<Row>): (sorted: seq<Row>)
    ensures SortedByCommute(sorted)
    ensures multiset(sorted) == multiset(rows)
    decreases |rows|
  {
    if rows == [] then []
    else
      assert rows == [rows[0]] + rows[1..];
      var rest := SortByCommute(rows[1..]);
      InsertSorted(rows[0], rest);
      Insert(rows[0], rest)
  }

  /** The frame with its three derived columns, or the error of the first column that raises. */
  function WithColumns(camps: seq<Camp>, commutes: Commutes): Result<seq<Row>, ReportError> {
    var commute :- CommuteColumn(camps, commutes);
    var numDays := NumDaysColumn(camps);
    var session :- SessionColumn(camps);
    Success(Zip(camps, commute, numDays, session))
  }

  /** The table `report` passes to `write_table`. */
  function ReportTable(camps: seq<Camp>, commutes: Commutes, p: ReportParams): Result<seq<Row>, ReportError> {
    var rows :- WithColumns(camps, commutes);
    Success(SortByCommute(FilterChain(rows, p)))
  }

  /**
   * The report table: it is produced exactly when every place has a commute
   * and every url a session id; row `i` of the frame holds camp `i` with its
   * commute, its number of days and its session id; each row of the table
   * satisfies every active filter, every row of the frame that does is in it
   * with all its copies, nothing else is, and the rows are in ascending
   * commute order.
   */
  lemma ReportTableSpec(camps: seq<Camp>, commutes: Commutes, p: ReportParams)
    ensures ReportTable(camps, commutes, p).Success? <==>
      (forall i :: 0 <= i < |camps| ==> camps[i].place in commutes)
      && (forall i :: 0 <= i < |camps| ==> ParseSession(camps[i].url).Some?)
    ensures ReportTable(camps, commutes, p).Success? ==>
      var rows := WithColumns(camps, commutes).value;
      var table := ReportTable(camps, commutes, p).value;
      && |rows| == |camps|
      && (forall i :: 0 <= i < |camps| ==> rows[i].camp == camps[i] && rows[i].commute == commutes[camps[i].place])
      && (forall i :: 0 <= i < |camps| ==> rows[i].numDays == NumDays(camps[i]) && Some(rows[i].session) == ParseSession(camps[i].url))
      && (forall x :: x in table ==> Active(p, x))
      && (forall x :: x in rows && Active(p, x) ==> x in table)
      && (forall x :: multiset(table)[x] == if Active(p, x) then multiset(rows)[x] else 0)
      && SortedByCommute(table)
  {
    if ReportTable(camps, commutes, p).Success? {
      var rows := WithColumns(camps, commutes).value;
      var table := ReportTable(camps, commutes, p).value;
      FilterChainIsApplyAll(rows, p);
      forall x ensures x in table <==> x in rows && Active(p, x)
        ensures multiset(table)[x] == if Active(p, x) then multiset(rows)[x] else 0
      {
        ApplyAllSpec(rows, Filters(p), x);
        ActiveIsPassesAll(p, x);
      }
    }
  }

  /** No row passing every active filter: the report table is empty, and nothing raises. */
  lemma EmptyReport(camps: seq<Camp>, commutes: Commutes, p: ReportParams)
    requires ReportTable(camps, commutes, p).Success?
    requires forall x :: x in WithColumns(camps, commutes).value ==> !Active(p, x)
    ensures ReportTable(camps, commutes, p).value == []
  {
    ReportTableSpec(camps, commutes, p);
  }

  /**
   * A record whose place is not stripped finds no commute: `details` keeps
   * the heading text as it is, while the keys of commutes.json are the
   * stripped lines of places.txt, so `report` raises a KeyError on it.
   */
  lemma PaddedPlaceRaises(camps: seq<Camp>, commutes: Commutes, p: ReportParams, i: nat)
    requires i < |camps| && !IsStripped(camps[i].place)
    requires forall k :: k in commutes <==> k in StrippedLines(JoinLines(Places(camps).value))
    ensures camps[i].place !in commutes
    ensures ReportTable(camps, commutes, p).Failure? && ReportTable(camps, commutes, p).error.MissingPlace?
  {
    var lines := StrippedLines(JoinLines(Places(camps).value));
    forall j | 0 <= j < |lines| ensures IsStripped(lines[j]) {
      StripSpec(ReadLines(JoinLines(Places(camps).value))[j]);
    }
  }

  /** The records with every place stripped, as `add_commute` would look them up with `place.strip()`. */
  function StripPlaces(camps: seq<Camp>): (stripped: seq<Camp>)
    ensures |stripped| == |camps|
    ensures forall i :: 0 <= i < |camps| ==> stripped[i] == camps[i].(place := Strip(camps[i].place))
  {
    seq(|camps|, i requires 0 <= i < |camps| => camps[i].(place := Strip(camps[i].place)))
  }

  /**
   * Looking up the stripped place, every record finds the commute that
   * `commute` stored for it, provided no place holds a newline.
   */
  lemma StrippedLookupFindsPlaces(camps: seq<Camp>, commutes: Commutes)
    requires camps != []
    requires forall i :: 0 <= i < |camps| ==> '\n' !in camps[i].place
    requires forall k :: k in commutes <==> k in StrippedLines(JoinLines(Places(camps).value))
    ensures CommuteColumn(StripPlaces(camps), commutes).Success?
  {
    var places := Places(camps).value;
    var lines := StrippedLines(JoinLines(places));
    assert forall j :: 0 <= j < |places| ==> '\n' !in places[j] by {
      forall j | 0 <= j < |places| ensures '\n' !in places[j] {
        assert places[j] in places;
      }
    }
    ReadJoinedLines(places);
    forall i | 0 <= i < |camps| ensures Strip(camps[i].place) in commutes {
      assert exists k :: 0 <= k < |camps| && camps[k].place == camps[i].place;
      assert camps[i].place in places;
      var j :| 0 <= j < |places| && places[j] == camps[i].place;
      StripTrailingSpace(places[j], '\n');
      assert places[j] + "\n" == places[j] + ['\n'];
      assert lines[j] == Strip(camps[i].place);
    }
  }

  /**
   * `report` on the records of camps.pkl and the table of commutes.json: the
   * three columns are added to the frame in place, then the chain and the
   * sort produce the table.
   */
  method ReportCommand(camps: seq<Camp>, commutes: Commutes, p: ReportParams) returns (r: Result<seq<Row>, ReportError>)
    ensures r == ReportTable(camps, commutes, p)
  {
    var df := new Frame(camps);
    var added := df.AddCommute(commutes);
    if added.Fail? {
      return Failure(added.error);
    }
    df.AddNumDays();
    added := df.AddSession();
    if added.Fail? {
      return Failure(added.error);
    }
    var rows := Zip(df.camps, df.commute.value, df.numDays.value, df.session.value);
    return Success(SortByCommute(FilterChain(rows, p)));
  }
}
