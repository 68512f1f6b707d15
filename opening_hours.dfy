/** Whether a visit fits a place's regular opening hours
    (`check_if_user_stay_fits_open_hours`). Times are whole minutes; every period
    is anchored on the calendar date of the visit. */
module OpeningHours {
  import opened Wrappers
  import opened Text
  import opened Schema

  /** How a check ends: the stay fits, or the reason it does not. */
  datatype Outcome =
    | Fits
    | NoHours
    | ClosedThatDay
    | ClosesEarly(close: TimeInfo)
    | ClosedAtTime(day: seq<OpenClosePeriod>)

  const NoHoursMessage := "No opening hours information available for this place."
  const ClosedDayMessage := "This place is closed on the day you want to visit."

  function ClosesEarlyMessage(close: TimeInfo): string {
    "This place will close at " + Clock(close)
    + " before you finish your stay. Consider shortening your visit or coming earlier."
  }

  function ClosedAtTimeMessage(windows: seq<string>): string {
    "This place will be closed when you want to visit. The opening hours for this day are: "
    + Join(SortedSet(windows), ", ") + ". Please adjust your visit time accordingly."
  }

  /** The text the check returns beside its verdict. */
  function Message(o: Outcome): string {
    match o
    case Fits => ""
    case NoHours => NoHoursMessage
    case ClosedThatDay => ClosedDayMessage
    case ClosesEarly(close) => ClosesEarlyMessage(close)
    case ClosedAtTime(day) => ClosedAtTimeMessage(Windows(day))
  }

  /** The pair the check returns: the verdict and its reason. */
  function Report(o: Outcome): (bool, string) {
    (o.Fits?, Message(o))
  }

  /** A text that starts with a non-empty part is not empty. */
  lemma NonEmptyPrefix(a: string, b: string)
    requires a != ""
    ensures a + b != ""
  {
    assert |a + b| >= |a| > 0;
  }

  lemma ClosesEarlyMessageNonEmpty(close: TimeInfo)
    ensures ClosesEarlyMessage(close) != ""
  {
    NonEmptyPrefix("This place will close at " + Clock(close),
      " before you finish your stay. Consider shortening your visit or coming earlier.");
  }

  lemma ClosedAtTimeMessageNonEmpty(windows: seq<string>)
    ensures ClosedAtTimeMessage(windows) != ""
  {
    NonEmptyPrefix("This place will be closed when you want to visit. The opening hours for this day are: "
      + Join(SortedSet(windows), ", "), ". Please adjust your visit time accordingly.");
  }

  /** The reason is empty exactly when the stay fits. */
  lemma MessageEmptyIffFits(o: Outcome)
    ensures Message(o) == "" <==> o.Fits?
  {
    match o
    case ClosesEarly(close) => ClosesEarlyMessageNonEmpty(close);
    case ClosedAtTime(day) => ClosedAtTimeMessageNonEmpty(Windows(day));
    case _ =>
  }

  /** Two decimal digits, as `%02d`. */
  function TwoDigits(n: nat): (s: string)
    ensures |s| == 2
  {
    [DigitChar((n % 100) / 10), DigitChar(n % 10)]
  }

  /** `strftime('%I:%M %p')` of a time whose hour is in 0..23 and minute in 0..59. */
  function Clock(t: TimeInfo): string {
    var h := t.hour % 24;
    var h12 := if h % 12 == 0 then 12 else h % 12;
    TwoDigits(h12) + ":" + TwoDigits(t.minute % 60) + (if h < 12 then " AM" else " PM")
  }

  /** The window text of one period. */
  function Window(p: OpenClosePeriod): string {
    Clock(p.open) + " - " + Clock(p.close)
  }

  function Windows(ps: seq<OpenClosePeriod>): (ws: seq<string>)
    ensures |ws| == |ps| && forall i :: 0 <= i < |ps| ==> ws[i] == Window(ps[i])
  {
    seq(|ps|, i requires 0 <= i < |ps| => Window(ps[i]))
  }

  /** A period that opens on the given weekday or on the day after it. */
  predicate OnDayOrNext(p: OpenClosePeriod, weekday: int)
  {
    p.open.day == weekday || p.open.day == (weekday + 1) % 7
  }

  /** The periods that open on the visit's weekday or on the next one (raw day numbers). */
  function DayPeriods(periods: seq<OpenClosePeriod>, weekday: int): (ds: seq<OpenClosePeriod>)
    ensures forall p :: p in ds <==> p in periods && (p.open.day == weekday || p.open.day == (weekday + 1) % 7)
    ensures |ds| <= |periods|
  {
    if |periods| == 0 then []
    else
      var rest := DayPeriods(periods[1..], weekday);
      assert forall p :: p in periods <==> p == periods[0] || p in periods[1..];
      if OnDayOrNext(periods[0], weekday)
      then [periods[0]] + rest else rest
  }

  /** The first period is kept or dropped on its own, ahead of the rest. */
  lemma DayPeriodsHead(periods: seq<OpenClosePeriod>, weekday: int)
    requires |periods| > 0
    ensures DayPeriods(periods, weekday)
      == (if OnDayOrNext(periods[0], weekday) then [periods[0]] else []) + DayPeriods(periods[1..], weekday)
  {
  }

  /** The first period of `a` is kept or dropped ahead of the rest of `a + b`. */
  lemma DayPeriodsHeadOfAppend(a: seq<OpenClosePeriod>, b: seq<OpenClosePeriod>, weekday: int)
    requires |a| > 0
    ensures DayPeriods(a + b, weekday)
      == (if OnDayOrNext(a[0], weekday) then [a[0]] else []) + DayPeriods(a[1..] + b, weekday)
  {
    assert (a + b)[0] == a[0];
    assert (a + b)[1..] == a[1..] + b;
    DayPeriodsHead(a + b, weekday);
  }

  /** Keeping the day's periods distributes over concatenation, so the kept periods stay
      in the order of the data. */
  lemma {:induction false} DayPeriodsAppend(a: seq<OpenClosePeriod>, b: seq<OpenClosePeriod>, weekday: int)
    ensures DayPeriods(a + b, weekday) == DayPeriods(a, weekday) + DayPeriods(b, weekday)
    decreases |a|
  {
    if |a| == 0 {
      assert a + b == b;
    } else {
      DayPeriodsAppend(a[1..], b, weekday);
      DayPeriodsHead(a, weekday);
      DayPeriodsHeadOfAppend(a, b, weekday);
      PrependAppended(if OnDayOrNext(a[0], weekday) then [a[0]] else [],
        DayPeriods(a[1..], weekday), DayPeriods(b, weekday), DayPeriods(a[1..] + b, weekday),
        DayPeriods(a + b, weekday), DayPeriods(a, weekday));
    }
  }

  /** The regrouping step of the append proof, kept apart from the periods' facts. */
  lemma PrependAppended<T>(h: seq<T>, x: seq<T>, y: seq<T>, z: seq<T>, l: seq<T>, r: seq<T>)
    requires z == x + y && l == h + z && r == h + x
    ensures l == r + y
  {
  }

  /** A single period is kept exactly when it opens on the visit's weekday or the next. */
  lemma DayPeriodsSingleton(p: OpenClosePeriod, weekday: int)
    ensures DayPeriods([p], weekday)
      == if p.open.day == weekday || p.open.day == (weekday + 1) % 7 then [p] else []
  {
    assert [p][1..] == [];
  }

  /** `get_datetime(date, t)`: the time `t` on the visit's date, one day later when `t`
      names a day other than the date's weekday. Out-of-range clock values raise, as
      in `time.replace` (the hour is checked first). */
  function Anchor(ordinal: int, t: TimeInfo): Result<int> {
    if !(0 <= t.hour <= 23) then Err("hour must be in 0..23")
    else if !(0 <= t.minute <= 59) then Err("minute must be in 0..59")
    else Ok(ordinal * 1440 + t.hour * 60 + t.minute + (if t.day != Weekday(ordinal) then 1440 else 0))
  }

  /** The anchored open and close instants of a period, the close moved one more day
      if it still falls before the open. */
  function AnchorPeriod(ordinal: int, p: OpenClosePeriod): Result<(int, int)> {
    var openAt :- Anchor(ordinal, p.open);
    var closeAt :- Anchor(ordinal, p.close);
    Ok((openAt, if closeAt < openAt then closeAt + 1440 else closeAt))
  }

  /** Scans the day periods in order: the first one whose anchored interval
      `[open, close)` holds the start decides (its index and close instant); an
      exception from anchoring a period earlier in the scan propagates. */
  function FirstContaining(ps: seq<OpenClosePeriod>, ordinal: int, start: int): (r: Result<Option<(nat, int)>>)
    ensures r.Ok? && r.value.Some? ==> r.value.value.0 < |ps|
  {
    if |ps| == 0 then Ok(None)
    else
      var times :- AnchorPeriod(ordinal, ps[0]);
      if times.0 <= start < times.1 then Ok(Some((0, times.1)))
      else
        var rest :- FirstContaining(ps[1..], ordinal, start);
        Ok(ShiftFound(rest, 1))
  }

  /** The index of a period found in a suffix starting at `k`, counted in the whole list. */
  function ShiftFound(found: Option<(nat, int)>, k: nat): Option<(nat, int)> {
    if found.Some? then Some((found.value.0 + k, found.value.1)) else None
  }

  /** The outcome once the scan is over: no period holds the start, or the first one
      that does closes by the end of the stay, or it closes too early. */
  function Verdict(day: seq<OpenClosePeriod>, found: Option<(nat, int)>, stayEnd: int): Outcome
    requires found.Some? ==> found.value.0 < |day|
  {
    if found.None? then ClosedAtTime(day)
    else if stayEnd <= found.value.1 then Fits
    else ClosesEarly(day[found.value.0].close)
  }

  /** The decision among the periods of the visit's day. */
  function DayOutcome(day: seq<OpenClosePeriod>, ordinal: int, start: int, stayEnd: int): Result<Outcome> {
    var found :- FirstContaining(day, ordinal, start);
    Ok(Verdict(day, found, stayEnd))
  }

  /** The matcher's decision. */
  function HoursOutcome(place: Place, stay: (DateTime, int)): Result<Outcome> {
    var start := stay.0;
    var periods := place.regularOpeningHours.periods;
    if |periods| == 0 then Ok(NoHours)
    else
      var day := DayPeriods(periods, Weekday(start.ordinal));
      if |day| == 0 then Ok(ClosedThatDay)
      else DayOutcome(day, start.ordinal, Instant(start), Instant(start) + stay.1)
  }

  /** The matcher: `Ok((true, ""))` when the stay fits, `Ok((false, reason))` otherwise. */
  function FitsOpenHours(place: Place, stay: (DateTime, int)): Result<(bool, string)> {
    var o :- HoursOutcome(place, stay);
    Ok(Report(o))
  }

  /** One step of the scan, taken at index `i` of the list. */
  lemma ScanStep(ps: seq<OpenClosePeriod>, ordinal: int, start: int, i: nat)
    requires i < |ps|
    ensures var t := AnchorPeriod(ordinal, ps[i]);
      FirstContaining(ps[i..], ordinal, start)
      == if t.Err? then Err(t.error)
         else if t.value.0 <= start < t.value.1 then Ok(Some((0, t.value.1)))
         else (var rest := FirstContaining(ps[i + 1..], ordinal, start);
               if rest.Err? then rest else Ok(ShiftFound(rest.value, 1)))
  {
    assert ps[i..][0] == ps[i];
    assert ps[i..][1..] == ps[i + 1..];
  }

  /** The outcome for a place with periods on the visit's day, read off the scan. */
  lemma OutcomeFromScan(place: Place, stay: (DateTime, int))
    requires |place.regularOpeningHours.periods| > 0
    requires |DayPeriods(place.regularOpeningHours.periods, Weekday(stay.0.ordinal))| > 0
    ensures var day := DayPeriods(place.regularOpeningHours.periods, Weekday(stay.0.ordinal));
      var found := FirstContaining(day, stay.0.ordinal, Instant(stay.0));
      HoursOutcome(place, stay)
      == if found.Err? then Err(found.error) else Ok(Verdict(day, found.value, Instant(stay.0) + stay.1))
  {
  }

  /** `check_if_user_stay_fits_open_hours`: the decision, rendered as the pair of a flag
      and the message `Message` gives. */
  method CheckIfUserStayFitsOpenHours(place: Place, stay: (DateTime, int)) returns (r: Result<(bool, string)>)
    ensures r == FitsOpenHours(place, stay)
  {
    var outcome := DecideOpenHours(place, stay);
    if outcome.Err? {
      return Err(outcome.error);
    }
    return Ok(Report(outcome.value));
  }

  /** The loop over the day periods with its early returns, each return naming the
      outcome whose message the source returns there. */
  method DecideOpenHours(place: Place, stay: (DateTime, int)) returns (r: Result<Outcome>)
    ensures r == HoursOutcome(place, stay)
  {
    var (userStart, duration) := stay;
    var userEnd := Instant(userStart) + duration;
    var periods := place.regularOpeningHours.periods;
    if |periods| == 0 {
      return Ok(NoHours);
    }
    var dayPeriods := DayPeriods(periods, Weekday(userStart.ordinal));
    if |dayPeriods| == 0 {
      return Ok(ClosedThatDay);
    }
    var ordinal, start := userStart.ordinal, Instant(userStart);
    assert HoursOutcome(place, stay) == DayOutcome(dayPeriods, ordinal, start, userEnd);
    var i := 0;
    while i < |dayPeriods|
      invariant 0 <= i <= |dayPeriods|
      invariant ScannedPast(dayPeriods, ordinal, start, i)
    {
      var period := dayPeriods[i];
      var openTime := Anchor(userStart.ordinal, period.open);
      if openTime.Err? {
        ScanRaises(dayPeriods, ordinal, start, userEnd, i);
        return Err(openTime.error);
      }
      var closeTime := Anchor(userStart.ordinal, period.close);
      if closeTime.Err? {
        ScanRaises(dayPeriods, ordinal, start, userEnd, i);
        return Err(closeTime.error);
      }
      var openAt, closeAt := openTime.value, closeTime.value;
      if closeAt < openAt {
        closeAt := closeAt + 1440;
      }
      assert AnchorPeriod(userStart.ordinal, period) == Ok((openAt, closeAt));
      if openAt <= Instant(userStart) < closeAt {
        ScanHits(dayPeriods, ordinal, start, userEnd, i);
        if userEnd <= closeAt {
          return Ok(Fits);
        } else {
          return Ok(ClosesEarly(period.close));
        }
      }
      ScannedPastStep(dayPeriods, ordinal, start, i);
      i := i + 1;
    }
    ScanMisses(dayPeriods, ordinal, start, userEnd);
    return Ok(ClosedAtTime(dayPeriods));
  }

  /** No period before index `i` raises or holds the start. */
  predicate ScannedPast(ps: seq<OpenClosePeriod>, ordinal: int, start: int, i: nat)
  {
    && i <= |ps|
    && forall j :: 0 <= j < i ==>
         (AnchorPeriod(ordinal, ps[j]).Ok?
          && !(AnchorPeriod(ordinal, ps[j]).value.0 <= start < AnchorPeriod(ordinal, ps[j]).value.1))
  }

  /** A period that anchors and does not hold the start extends the scanned prefix. */
  lemma ScannedPastStep(ps: seq<OpenClosePeriod>, ordinal: int, start: int, i: nat)
    requires i < |ps| && ScannedPast(ps, ordinal, start, i) && AnchorPeriod(ordinal, ps[i]).Ok?
    requires !(AnchorPeriod(ordinal, ps[i]).value.0 <= start < AnchorPeriod(ordinal, ps[i]).value.1)
    ensures ScannedPast(ps, ordinal, start, i + 1)
  {
  }

  /** Period `k` decides the scan: every period before it anchors without raising and
      does not hold the start, and period `k` anchors and holds it. */
  predicate DecidedBy(day: seq<OpenClosePeriod>, ordinal: int, start: int, k: nat)
  {
    && k < |day|
    && ScannedPast(day, ordinal, start, k)
    && AnchorPeriod(ordinal, day[k]).Ok?
    && AnchorPeriod(ordinal, day[k]).value.0 <= start < AnchorPeriod(ordinal, day[k]).value.1
  }

  /** Once the scan has passed the first `i` periods, the rest of it decides. */
  lemma {:induction false} FirstContainingPast(ps: seq<OpenClosePeriod>, ordinal: int, start: int, i: nat)
    requires ScannedPast(ps, ordinal, start, i)
    ensures var rest := FirstContaining(ps[i..], ordinal, start);
      FirstContaining(ps, ordinal, start) == if rest.Err? then rest else Ok(ShiftFound(rest.value, i))
  {
    if i > 0 {
      FirstContainingPast(ps, ordinal, start, i - 1);
      ScanStep(ps, ordinal, start, i - 1);
    }
  }

  /** The outcome when the scan reaches period `i` and anchoring it raises. */
  lemma ScanRaises(day: seq<OpenClosePeriod>, ordinal: int, start: int, stayEnd: int, i: nat)
    requires i < |day| && ScannedPast(day, ordinal, start, i) && AnchorPeriod(ordinal, day[i]).Err?
    ensures DayOutcome(day, ordinal, start, stayEnd) == Err(AnchorPeriod(ordinal, day[i]).error)
  {
    FirstContainingPast(day, ordinal, start, i);
    ScanStep(day, ordinal, start, i);
  }

  /** The outcome when period `i` is the first that holds the start. */
  lemma ScanHits(day: seq<OpenClosePeriod>, ordinal: int, start: int, stayEnd: int, i: nat)
    requires DecidedBy(day, ordinal, start, i)
    ensures DayOutcome(day, ordinal, start, stayEnd)
         == Ok(if stayEnd <= AnchorPeriod(ordinal, day[i]).value.1 then Fits else ClosesEarly(day[i].close))
  {
    FirstContainingPast(day, ordinal, start, i);
    ScanStep(day, ordinal, start, i);
  }

  /** The outcome when no day period holds the start. */
  lemma ScanMisses(day: seq<OpenClosePeriod>, ordinal: int, start: int, stayEnd: int)
    requires ScannedPast(day, ordinal, start, |day|)
    ensures DayOutcome(day, ordinal, start, stayEnd) == Ok(ClosedAtTime(day))
  {
    FirstContainingPast(day, ordinal, start, |day|);
    assert day[|day|..] == [];
  }

  // ---------------------------------------------------------------- sorted set of windows

  /** Inserts `w` into a strictly increasing list, dropping it if it is already there. */
  function InsertSorted(w: string, s: seq<string>): (r: seq<string>)
  {
    if |s| == 0 then [w]
    else if w == s[0] then s
    else if LexLess(w, s[0]) then [w] + s
    else [s[0]] + InsertSorted(w, s[1..])
  }

  /** `sorted(set(ws))`. */
  function SortedSet(ws: seq<string>): seq<string>
  {
    if |ws| == 0 then [] else InsertSorted(ws[|ws| - 1], SortedSet(ws[..|ws| - 1]))
  }

  ghost predicate StrictlySorted(s: seq<string>) {
    forall i, j :: 0 <= i < j < |s| ==> LexLess(s[i], s[j])
  }

  lemma {:induction false} InsertSortedCorrect(w: string, s: seq<string>)
    requires StrictlySorted(s)
    ensures StrictlySorted(InsertSorted(w, s))
    ensures forall x :: x in InsertSorted(w, s) <==> x in s || x == w
  {
    if |s| > 0 && w != s[0] && !LexLess(w, s[0]) {
      LexLessTotal(w, s[0]);
      InsertSortedCorrect(w, s[1..]);
      var r := InsertSorted(w, s[1..]);
      assert InsertSorted(w, s) == [s[0]] + r;
      forall j | 0 <= j < |r| ensures LexLess(s[0], r[j]) {
        assert r[j] in r;
        if r[j] != w {
          assert r[j] in s[1..];
          var k :| 0 <= k < |s[1..]| && s[1..][k] == r[j];
          assert s[k + 1] == r[j];
        }
      }
      assert s == [s[0]] + s[1..];
    } else if |s| > 0 && w != s[0] {
      forall j | 1 <= j < |s| ensures LexLess(w, s[j]) {
        LexLessTransitive(w, s[0], s[j]);
      }
    }
  }

  /** `SortedSet` lists every distinct window once, in increasing order. */
  lemma {:induction false} SortedSetCorrect(ws: seq<string>)
    ensures StrictlySorted(SortedSet(ws))
    ensures forall x :: x in SortedSet(ws) <==> x in ws
  {
    if |ws| > 0 {
      var init := ws[..|ws| - 1];
      SortedSetCorrect(init);
      InsertSortedCorrect(ws[|ws| - 1], SortedSet(init));
      assert ws == init + [ws[|ws| - 1]];
    }
  }

  /** A strictly sorted list is determined by its elements, so `SortedSet` is the list
      `sorted(set(...))` produces. */
  lemma {:induction false} StrictlySortedUnique(a: seq<string>, b: seq<string>)
    requires StrictlySorted(a) && StrictlySorted(b)
    requires forall x :: x in a <==> x in b
    ensures a == b
    decreases |a|
  {
    assert |a| > 0 <==> |b| > 0 by {
      if |a| > 0 { assert a[0] in a; }
      if |b| > 0 { assert b[0] in b; }
    }
    if |a| > 0 {
      assert a[0] in a && b[0] in b;
      if a[0] != b[0] {
        var i :| 0 <= i < |b| && b[i] == a[0];
        var j :| 0 <= j < |a| && a[j] == b[0];
        assert i > 0 && j > 0;
        LexLessAsymmetric(b[0], a[0]);
      }
      LexLessIrreflexive(a[0]);
      forall x | x in a[1..] ensures x in b[1..] {
        var i :| 0 <= i < |a[1..]| && a[1..][i] == x;
        assert LexLess(a[0], a[i + 1]);
        assert x in b;
        assert b == [b[0]] + b[1..];
      }
      forall x | x in b[1..] ensures x in a[1..] {
        var i :| 0 <= i < |b[1..]| && b[1..][i] == x;
        assert LexLess(b[0], b[i + 1]);
        assert x in a;
        assert a == [a[0]] + a[1..];
      }
      StrictlySortedUnique(a[1..], b[1..]);
      assert a == [a[0]] + a[1..] && b == [b[0]] + b[1..];
    }
  }

  // ---------------------------------------------------------------- properties

  lemma {:induction false} FirstContainingSome(ps: seq<OpenClosePeriod>, ordinal: int, start: int, k: nat)
    requires FirstContaining(ps, ordinal, start).Ok? && FirstContaining(ps, ordinal, start).value.Some?
    requires FirstContaining(ps, ordinal, start).value.value.0 == k
    ensures DecidedBy(ps, ordinal, start, k)
    ensures FirstContaining(ps, ordinal, start).value.value.1 == AnchorPeriod(ordinal, ps[k]).value.1
    decreases |ps|
  {
    var t := AnchorPeriod(ordinal, ps[0]);
    if !(t.value.0 <= start < t.value.1) {
      var rest := FirstContaining(ps[1..], ordinal, start);
      FirstContainingSome(ps[1..], ordinal, start, k - 1);
      forall j | 0 <= j < k ensures AnchorPeriod(ordinal, ps[j]).Ok?
        && !(AnchorPeriod(ordinal, ps[j]).value.0 <= start < AnchorPeriod(ordinal, ps[j]).value.1)
      {
        if j > 0 { assert ps[j] == ps[1..][j - 1]; }
      }
      assert ps[k] == ps[1..][k - 1];
    }
  }

  /** The stay fits exactly when some period decides the scan (it is the first that
      holds the start, and no period before it raises) and closes no earlier than the
      end of the stay; a stay that ends exactly at closing time fits. */
  lemma FitsIff(place: Place, stay: (DateTime, int))
    requires |place.regularOpeningHours.periods| > 0
    ensures var day := DayPeriods(place.regularOpeningHours.periods, Weekday(stay.0.ordinal));
      FitsOpenHours(place, stay) == Ok((true, ""))
      <==> exists k: nat :: DecidedBy(day, stay.0.ordinal, Instant(stay.0), k)
             && Instant(stay.0) + stay.1 <= AnchorPeriod(stay.0.ordinal, day[k]).value.1
  {
    var day := DayPeriods(place.regularOpeningHours.periods, Weekday(stay.0.ordinal));
    var found := FirstContaining(day, stay.0.ordinal, Instant(stay.0));
    if FitsOpenHours(place, stay) == Ok((true, "")) {
      assert |day| > 0;
      OutcomeFromScan(place, stay);
      FirstContainingSome(day, stay.0.ordinal, Instant(stay.0), found.value.value.0);
    }
    forall k: nat | DecidedBy(day, stay.0.ordinal, Instant(stay.0), k)
        && Instant(stay.0) + stay.1 <= AnchorPeriod(stay.0.ordinal, day[k]).value.1
      ensures FitsOpenHours(place, stay) == Ok((true, ""))
    {
      ScanHits(day, stay.0.ordinal, Instant(stay.0), Instant(stay.0) + stay.1, k);
      OutcomeFromScan(place, stay);
    }
  }

  /** The verdict is positive exactly when the reason is empty: every negative answer
      carries a message. */
  lemma ReasonEmptyIffFits(place: Place, stay: (DateTime, int))
    requires FitsOpenHours(place, stay).Ok?
    ensures FitsOpenHours(place, stay).value.0 <==> FitsOpenHours(place, stay).value.1 == ""
  {
    MessageEmptyIffFits(HoursOutcome(place, stay).value);
  }

  /** Only the periods that open on the visit's weekday or the next one are looked at:
      two places whose such periods agree get the same answer. */
  lemma OnlyDayPeriodsMatter(p1: Place, p2: Place, stay: (DateTime, int))
    requires |p1.regularOpeningHours.periods| > 0 && |p2.regularOpeningHours.periods| > 0
    requires DayPeriods(p1.regularOpeningHours.periods, Weekday(stay.0.ordinal))
          == DayPeriods(p2.regularOpeningHours.periods, Weekday(stay.0.ordinal))
    ensures FitsOpenHours(p1, stay) == FitsOpenHours(p2, stay)
  {
  }

  lemma {:induction false} DayPeriodsNone(periods: seq<OpenClosePeriod>, weekday: int)
    requires forall j :: 0 <= j < |periods| ==>
      periods[j].open.day != weekday && periods[j].open.day != (weekday + 1) % 7
    ensures DayPeriods(periods, weekday) == []
  {
    if |periods| > 0 {
      DayPeriodsNone(periods[1..], weekday);
    }
  }

  /** A place with periods, none of which opens on the visit's weekday or the next
      day, is reported closed that day. */
  lemma ClosedOnDay(place: Place, stay: (DateTime, int))
    requires |place.regularOpeningHours.periods| > 0
    requires forall j :: 0 <= j < |place.regularOpeningHours.periods| ==>
      place.regularOpeningHours.periods[j].open.day != Weekday(stay.0.ordinal)
      && place.regularOpeningHours.periods[j].open.day != (Weekday(stay.0.ordinal) + 1) % 7
    ensures FitsOpenHours(place, stay) == Ok((false, ClosedDayMessage))
  {
    DayPeriodsNone(place.regularOpeningHours.periods, Weekday(stay.0.ordinal));
  }

  // ---------------------------------------------------------------- week shift

  lemma AnchorShift(ordinal: int, t: TimeInfo)
    ensures Anchor(ordinal + 7, t).Ok? == Anchor(ordinal, t).Ok?
    ensures Anchor(ordinal, t).Err? ==> Anchor(ordinal + 7, t) == Anchor(ordinal, t)
    ensures Anchor(ordinal, t).Ok? ==> Anchor(ordinal + 7, t).value == Anchor(ordinal, t).value + 7 * 1440
  {
    WeekdayPeriodic(ordinal);
  }

  lemma {:induction false} FirstContainingShift(ps: seq<OpenClosePeriod>, ordinal: int, start: int)
    ensures var a := FirstContaining(ps, ordinal, start);
      var b := FirstContaining(ps, ordinal + 7, start + 7 * 1440);
      && (a.Err? <==> b.Err?) && (a.Err? ==> a == b)
      && (a.Ok? ==> (a.value.None? <==> b.value.None?))
      && (a.Ok? && a.value.Some? ==> b.value.value == (a.value.value.0, a.value.value.1 + 7 * 1440))
    decreases |ps|
  {
    if |ps| > 0 {
      AnchorShift(ordinal, ps[0].open);
      AnchorShift(ordinal, ps[0].close);
      FirstContainingShift(ps[1..], ordinal, start);
    }
  }

  /** Shifting the visit's date, start and end by one week leaves the day's decision as
      it is. */
  lemma DayOutcomeShift(day: seq<OpenClosePeriod>, ordinal: int, start: int, stayEnd: int)
    ensures DayOutcome(day, ordinal + 7, start + 7 * 1440, stayEnd + 7 * 1440)
         == DayOutcome(day, ordinal, start, stayEnd)
  {
    FirstContainingShift(day, ordinal, start);
  }

  /** Moving the visit by one week changes nothing: the weekday, the periods
      considered and every comparison stay the same. */
  lemma WeekShiftOutcome(place: Place, start: DateTime, duration: int)
    ensures HoursOutcome(place, (DateTime(start.ordinal + 7, start.minuteOfDay), duration))
         == HoursOutcome(place, (start, duration))
  {
    var later := DateTime(start.ordinal + 7, start.minuteOfDay);
    var day := DayPeriods(place.regularOpeningHours.periods, Weekday(start.ordinal));
    WeekdayPeriodic(start.ordinal);
    HoursOutcomeOfDay(place, (start, duration), day);
    HoursOutcomeOfDay(place, (later, duration), day);
    DayOutcomeWeekLater(day, start, duration);
  }

  /** `DayOutcomeShift` for a visit moved by one week on the calendar. */
  lemma DayOutcomeWeekLater(day: seq<OpenClosePeriod>, start: DateTime, duration: int)
    ensures var later := DateTime(start.ordinal + 7, start.minuteOfDay);
      DayOutcome(day, later.ordinal, Instant(later), Instant(later) + duration)
      == DayOutcome(day, start.ordinal, Instant(start), Instant(start) + duration)
  {
    var later := DateTime(start.ordinal + 7, start.minuteOfDay);
    assert Instant(later) + duration == Instant(start) + duration + 7 * 1440;
    DayOutcomeShift(day, start.ordinal, Instant(start), Instant(start) + duration);
  }

  /** `HoursOutcome` in terms of an already computed list of the day's periods. */
  lemma HoursOutcomeOfDay(place: Place, stay: (DateTime, int), day: seq<OpenClosePeriod>)
    requires day == DayPeriods(place.regularOpeningHours.periods, Weekday(stay.0.ordinal))
    ensures HoursOutcome(place, stay)
      == if |place.regularOpeningHours.periods| == 0 then Ok(NoHours)
         else if |day| == 0 then Ok(ClosedThatDay)
         else DayOutcome(day, stay.0.ordinal, Instant(stay.0), Instant(stay.0) + stay.1)
  {
  }

  /** A visit one week later gets the same answer. */
  lemma WeekShiftInvariant(place: Place, start: DateTime, duration: int)
    ensures FitsOpenHours(place, (DateTime(start.ordinal + 7, start.minuteOfDay), duration))
         == FitsOpenHours(place, (start, duration))
  {
    WeekShiftOutcome(place, start, duration);
  }
  /** The day numbers of the places data count from Sunday (the note on
      `get_datetime_for_place_hours`), while the visit's weekday counts from Monday, and
      the matcher compares the two unconverted. So a place whose single period runs from
      9:00 to 17:00 on the visit's own weekday, in the data's numbering, is reported
      closed for a visit inside those hours: the period is anchored on the next day. */
  lemma SameWeekdayPeriodAnchoredNextDay(place: Place, start: DateTime, duration: int)
    requires var g := (Weekday(start.ordinal) + 1) % 7;
      place.regularOpeningHours.periods == [OpenClosePeriod(TimeInfo(g, 9, 0), TimeInfo(g, 17, 0))]
    requires 9 * 60 <= start.minuteOfDay < 17 * 60
    ensures HoursOutcome(place, (start, duration)) == Ok(ClosedAtTime(place.regularOpeningHours.periods))
  {
    var periods := place.regularOpeningHours.periods;
    var p := periods[0];
    var day := DayPeriods(periods, Weekday(start.ordinal));
    assert p in day;
    assert day == periods by {
      assert |day| <= 1;
      assert day[0] == p;
    }
    var base := start.ordinal * 1440;
    assert AnchorPeriod(start.ordinal, p) == Ok((base + 1440 + 9 * 60, base + 1440 + 17 * 60));
    assert FirstContaining(day, start.ordinal, Instant(start)) == Ok(None) by {
      ScanStep(day, start.ordinal, Instant(start), 0);
      assert day[0..] == day;
      assert day[1..] == [];
    }
  }

  /** `sorted(set(...))` of two windows, each listed twice, the later one first in text
      order. */
  lemma SortedSetOfPairs(m: string, a: string)
    requires LexLess(a, m)
    ensures SortedSet([m, m, a, a]) == [a, m]
  {
    LexLessIrreflexive(a);
    var ws := [m, m, a, a];
    assert ws[..3] == [m, m, a] && ws[..3][..2] == [m, m] && ws[..3][..2][..1] == [m];
    assert SortedSet([m]) == [m] by {
      assert [m][..0] == [];
    }
    assert SortedSet([m, m]) == [m];
    assert SortedSet([m, m, a]) == [a, m];
    assert InsertSorted(a, [a, m]) == [a, m];
  }

  lemma ClockText(t: TimeInfo, hh: string, ampm: string)
    requires t.minute == 0 && 0 <= t.hour < 24
    requires hh == TwoDigits(if t.hour % 12 == 0 then 12 else t.hour % 12)
    requires ampm == if t.hour < 12 then " AM" else " PM"
    ensures Clock(t) == hh + ":00" + ampm
  {
    assert t.hour % 24 == t.hour && t.minute % 60 == 0;
    assert TwoDigits(0) == "00";
  }

  lemma WindowText(p: OpenClosePeriod, open: string, close: string)
    requires Clock(p.open) == open && Clock(p.close) == close
    ensures Window(p) == open + " - " + close
  {
  }

  lemma MorningWindow(d: int)
    ensures Window(OpenClosePeriod(TimeInfo(d, 9, 0), TimeInfo(d, 12, 0))) == "09:00 AM - 12:00 PM"
  {
    assert Clock(TimeInfo(d, 9, 0)) == "09:00 AM" by {
      assert TwoDigits(9) == "09";
      ClockText(TimeInfo(d, 9, 0), "09", " AM");
    }
    assert Clock(TimeInfo(d, 12, 0)) == "12:00 PM" by {
      assert TwoDigits(12) == "12";
      ClockText(TimeInfo(d, 12, 0), "12", " PM");
    }
    WindowText(OpenClosePeriod(TimeInfo(d, 9, 0), TimeInfo(d, 12, 0)), "09:00 AM", "12:00 PM");
  }

  lemma AfternoonWindow(e: int)
    ensures Window(OpenClosePeriod(TimeInfo(e, 13, 0), TimeInfo(e, 17, 0))) == "01:00 PM - 05:00 PM"
  {
    assert Clock(TimeInfo(e, 13, 0)) == "01:00 PM" by {
      assert TwoDigits(1) == "01";
      ClockText(TimeInfo(e, 13, 0), "01", " PM");
    }
    assert Clock(TimeInfo(e, 17, 0)) == "05:00 PM" by {
      assert TwoDigits(5) == "05";
      ClockText(TimeInfo(e, 17, 0), "05", " PM");
    }
    WindowText(OpenClosePeriod(TimeInfo(e, 13, 0), TimeInfo(e, 17, 0)), "01:00 PM", "05:00 PM");
  }

  /** The windows of the "closed" message are ordered as text, not as times: a day with
      a morning and an afternoon period, each listed twice, lists the afternoon first. */
  lemma WindowsSortAsText(d: int, e: int)
    ensures var morning := Window(OpenClosePeriod(TimeInfo(d, 9, 0), TimeInfo(d, 12, 0)));
      var afternoon := Window(OpenClosePeriod(TimeInfo(e, 13, 0), TimeInfo(e, 17, 0)));
      morning == "09:00 AM - 12:00 PM" && afternoon == "01:00 PM - 05:00 PM" &&
      SortedSet([morning, morning, afternoon, afternoon]) == [afternoon, morning]
  {
    MorningWindow(d);
    AfternoonWindow(e);
    var m: string := "09:00 AM - 12:00 PM";
    var a: string := "01:00 PM - 05:00 PM";
    assert LexLess(a, m) by {
      assert a[0] == m[0] && a[1] < m[1];
      assert a[1..][0] < m[1..][0];
    }
    SortedSetOfPairs(m, a);
  }
}
