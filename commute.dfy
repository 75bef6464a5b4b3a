/**
 * Commute estimation of utils_commute.py: the choice of the day to route on,
 * the four Distance Matrix queries for it, the sum of their durations, and the
 * check of a loaded commutes table. Each query's answer is given by a
 * function from the query to its response; "today" is a parameter.
 */
module Commute {
  import opened Wrappers
  import opened Calendar

  const DefaultHome := "4440 Miniature Ln, Fairfax, VA 22033"
  const AvoidTolls := "tolls"
  const MorningHour := 9
  const AfternoonHour := 16
  const SecondsPerDay := 86400
  const SecondsPerHour := 3600

  /**
   * `dt_to_seconds` of the UTC datetime at hour `hour` of day number `day`:
   * the seconds since 1970-01-01T00:00Z, from which the day and the hour are
   * recovered by division.
   */
  function DtToSeconds(day: int, hour: int): (s: int)
    requires 0 <= hour < 24
    ensures s / SecondsPerDay == day && s % SecondsPerDay == hour * SecondsPerHour
  {
    var s := day * SecondsPerDay + hour * SecondsPerHour;
    DivModUnique(s, day, hour * SecondsPerHour);
    s
  }

  lemma DivModUnique(s: int, q: int, r: int)
    requires 0 <= r < SecondsPerDay && s == q * SecondsPerDay + r
    ensures s / SecondsPerDay == q && s % SecondsPerDay == r
  {
  }

  /**
   * The two marks of a day are seven hours apart, and the same hour of the
   * next day is one day of seconds later.
   */
  lemma DtToSecondsSpacing(day: int)
    ensures DtToSeconds(day, AfternoonHour) - DtToSeconds(day, MorningHour) == 25200
    ensures DtToSeconds(day + 1, MorningHour) - DtToSeconds(day, MorningHour) == SecondsPerDay
  {
  }

  /**
   * The day `get_commute_params` routes on: tomorrow, or two days later when
   * tomorrow is a Saturday or a Sunday. It is always a weekday one to three
   * days ahead, and it is tomorrow exactly when tomorrow is a weekday.
   */
  function CommuteDay(today: int): (day: int)
    ensures Weekday(day) < Saturday
    ensures today + 1 <= day <= today + 3
    ensures day == today + 1 <==> Weekday(today + 1) < Saturday
  {
    var tomorrow := today + 1;
    if Weekday(tomorrow) >= Saturday then tomorrow + 2 else tomorrow
  }

  /**
   * A Saturday tomorrow gives the Monday after it, but a Sunday tomorrow
   * gives Tuesday: the Monday that directly follows that Sunday is skipped.
   */
  lemma CommuteDayAfterWeekend(today: int)
    ensures Weekday(today + 1) == Saturday ==> CommuteDay(today) == today + 3 && Weekday(CommuteDay(today)) == 0
    ensures Weekday(today + 1) == Sunday ==>
      && CommuteDay(today) == today + 3 && Weekday(CommuteDay(today)) == 1
      && Weekday(today + 2) == 0
  {
  }

  /** One Distance Matrix query. Exactly one of the two times is set. */
  datatype Params = Params(
    avoid: string,
    key: Option<string>,          // os.getenv("MAP_API_KEY"), a parameter here
    destinations: string,
    origins: string,
    arrivalTime: Option<int>,
    departureTime: Option<int>)

  /**
   * The four legs of a day's commute: home to camp arriving at 9:00, camp to
   * home leaving at 9:00, home to camp arriving at 16:00 and camp to home
   * leaving at 16:00 (UTC), all avoiding tolls.
   */
  function CommuteLegs(camp: string, home: string, day: int, key: Option<string>): (legs: seq<Params>)
    ensures |legs| == 4
    ensures forall i :: 0 <= i < 4 ==> legs[i].avoid == AvoidTolls && legs[i].key == key
    ensures forall i :: 0 <= i < 4 ==> (legs[i].arrivalTime.Some? <==> legs[i].departureTime.None?)
    ensures forall i :: 0 <= i < 4 ==>
      if i % 2 == 0 then legs[i].origins == home && legs[i].destinations == camp && legs[i].arrivalTime.Some?
      else legs[i].origins == camp && legs[i].destinations == home && legs[i].departureTime.Some?
    ensures legs[0].arrivalTime == legs[1].departureTime == Some(DtToSeconds(day, MorningHour))
    ensures legs[2].arrivalTime == legs[3].departureTime == Some(DtToSeconds(day, AfternoonHour))
  {
    var morning := DtToSeconds(day, MorningHour);
    var afternoon := DtToSeconds(day, AfternoonHour);
    [ Params(AvoidTolls, key, camp, home, Some(morning), None),
      Params(AvoidTolls, key, home, camp, None, Some(morning)),
      Params(AvoidTolls, key, camp, home, Some(afternoon), None),
      Params(AvoidTolls, key, home, camp, None, Some(afternoon)) ]
  }

  /** `get_commute_params`: builds the four legs by appending them one at a time. */
  method GetCommuteParams(camp: string, home: string, today: int, key: Option<string>) returns (allParams: seq<Params>)
    ensures allParams == CommuteLegs(camp, home, CommuteDay(today), key)
  {
    var tomorrow := today + 1;
    if Weekday(tomorrow) >= Saturday {
      tomorrow := tomorrow + 2;
    }
    var morning := DtToSeconds(tomorrow, MorningHour);
    var afternoon := DtToSeconds(tomorrow, AfternoonHour);
    allParams := [];
    allParams := allParams + [Params(AvoidTolls, key, camp, home, Some(morning), None)];
    allParams := allParams + [Params(AvoidTolls, key, home, camp, None, Some(morning))];
    allParams := allParams + [Params(AvoidTolls, key, camp, home, Some(afternoon), None)];
    allParams := allParams + [Params(AvoidTolls, key, home, camp, None, Some(afternoon))];
  }

  /** The first element of a Distance Matrix answer: its status and its duration in seconds. */
  datatype Response = Response(status: string, duration: int)

  predicate IsOk(r: Response) {
    r.status == "OK"
  }

  /** Every leg is answered "OK". */
  predicate AllOk(legs: seq<Params>, respond: Params -> Response) {
    forall i :: 0 <= i < |legs| ==> IsOk(respond(legs[i]))
  }

  /** The sum of the legs' durations. */
  function TotalSeconds(legs: seq<Params>, respond: Params -> Response): int
    decreases |legs|
  {
    if legs == [] then 0 else TotalSeconds(legs[..|legs| - 1], respond) + respond(legs[|legs| - 1]).duration
  }

  /** The legs `calculate_commute` asks about: all of them up to and including the first that is not "OK". */
  function Queried(legs: seq<Params>, respond: Params -> Response): (asked: seq<Params>)
    ensures asked <= legs && (asked == legs || (asked != [] && !IsOk(respond(asked[|asked| - 1]))))
    ensures forall i :: 0 <= i < |asked| - 1 ==> IsOk(respond(asked[i]))
    decreases |legs|
  {
    if legs == [] then []
    else if !IsOk(respond(legs[0])) then [legs[0]]
    else [legs[0]] + Queried(legs[1..], respond)
  }

  /**
   * The estimate for the legs: the total duration in whole minutes (floor
   * division) when every leg is "OK", and `None` otherwise.
   */
  function Estimate(legs: seq<Params>, respond: Params -> Response): Option<int> {
    if AllOk(legs, respond) then Some(TotalSeconds(legs, respond) / 60) else None
  }

  /** `calculate_commute`'s answer for a place, with `date.today()` as `today`. */
  function CommuteMinutes(camp: string, home: string, today: int, key: Option<string>, respond: Params -> Response): Option<int> {
    Estimate(CommuteLegs(camp, home, CommuteDay(today), key), respond)
  }

  /** Minutes are never negative when no duration is. */
  lemma {:induction false} EstimateNonNegative(legs: seq<Params>, respond: Params -> Response)
    requires forall i :: 0 <= i < |legs| ==> respond(legs[i]).duration >= 0
    ensures TotalSeconds(legs, respond) >= 0
    ensures Estimate(legs, respond).Some? ==> Estimate(legs, respond).value >= 0
    decreases |legs|
  {
    if legs != [] {
      EstimateNonNegative(legs[..|legs| - 1], respond);
    }
  }

  /** One more leg adds its duration to the total. */
  lemma TotalSecondsSnoc(legs: seq<Params>, respond: Params -> Response, i: nat)
    requires i < |legs|
    ensures TotalSeconds(legs[..i + 1], respond) == TotalSeconds(legs[..i], respond) + respond(legs[i]).duration
  {
    assert legs[..i + 1][..i] == legs[..i];
  }

  /**
   * With every leg before `i` "OK", the queries are those legs, then leg `i`
   * and, when it is "OK" too, the queries from leg `i + 1` on.
   */
  lemma {:induction false} QueriedPrefix(legs: seq<Params>, respond: Params -> Response, i: nat)
    requires i <= |legs| && AllOk(legs[..i], respond)
    ensures i == |legs| ==> Queried(legs, respond) == legs
    ensures i < |legs| && !IsOk(respond(legs[i])) ==> Queried(legs, respond) == legs[..i + 1]
    decreases i
  {
    if i > 0 {
      assert legs[1..][..i - 1] == legs[1..i];
      var front := legs[..i];
      var tail := legs[1..][..i - 1];
      forall j | 0 <= j < |tail| ensures IsOk(respond(tail[j])) {
        assert tail[j] == front[j + 1];
      }
      QueriedPrefix(legs[1..], respond, i - 1);
      assert legs[..i][0] == legs[0];
      assert [legs[0]] + legs[1..] == legs;
      if i < |legs| {
        assert [legs[0]] + legs[1..][..i] == legs[..i + 1];
      }
    }
  }

  /**
   * The loop of `calculate_commute` over the legs: each is queried in turn and
   * its duration added, until one is not "OK". `asked` lists the queries sent.
   */
  method QueryLegs(legs: seq<Params>, respond: Params -> Response) returns (minutes: Option<int>, asked: seq<Params>)
    ensures minutes == Estimate(legs, respond)
    ensures asked == Queried(legs, respond)
  {
    var totalTime := 0;
    asked := [];
    for i := 0 to |legs|
      invariant asked == legs[..i]
      invariant AllOk(legs[..i], respond)
      invariant totalTime == TotalSeconds(legs[..i], respond)
    {
      var r := respond(legs[i]);
      asked := asked + [legs[i]];
      if !IsOk(r) {
        QueriedPrefix(legs, respond, i);
        assert !AllOk(legs, respond);
        return None, asked;
      }
      TotalSecondsSnoc(legs, respond, i);
      totalTime := totalTime + r.duration;
    }
    assert legs[..|legs|] == legs;
    QueriedPrefix(legs, respond, |legs|);
    return Some(totalTime / 60), asked;
  }

  /**
   * `calculate_commute`: `None` as soon as one of the four legs is not "OK",
   * with no query sent after it; otherwise the total of the four durations in
   * whole minutes.
   */
  method CalculateCommute(camp: string, home: string, today: int, key: Option<string>, respond: Params -> Response)
    returns (minutes: Option<int>, asked: seq<Params>)
    ensures minutes == CommuteMinutes(camp, home, today, key, respond)
    ensures asked == Queried(CommuteLegs(camp, home, CommuteDay(today), key), respond)
  {
    var allParams := GetCommuteParams(camp, home, today, key);
    minutes, asked := QueryLegs(allParams, respond);
  }

  /** A value `if not v` accepts: present and not zero. */
  predicate Truthy(v: Option<int>) {
    v.Some? && v.value != 0
  }

  function NotFoundMessage(place: string): string {
    "Commute not found for \"" + place + "\""
  }

  /**
   * The check of `load_commutes`: the table is returned unchanged when every
   * value is truthy, and otherwise the ValueError names a place whose value
   * is `null` or 0.
   */
  method LoadCommutes(commutes: map<string, Option<int>>) returns (r: Result<map<string, Option<int>>, string>)
    ensures r.Success? <==> forall k :: k in commutes ==> Truthy(commutes[k])
    ensures r.Success? ==> r.value == commutes
    ensures r.Failure? ==> exists k :: k in commutes && !Truthy(commutes[k]) && r.error == NotFoundMessage(k)
  {
    var remaining := commutes.Keys;
    while remaining != {}
      invariant remaining <= commutes.Keys
      invariant forall k :: k in commutes && k !in remaining ==> Truthy(commutes[k])
      decreases remaining
    {
      var k :| k in remaining;
      if !Truthy(commutes[k]) {
        return Failure(NotFoundMessage(k));
      }
      remaining := remaining - {k};
    }
    return Success(commutes);
  }
}
