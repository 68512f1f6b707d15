/** The ranking score of a place under the user's preferences
    (`calculate_rating_score`, `calculate_place_score`). Scores are reals; the
    natural logarithm is a parameter that satisfies the laws the bounds need. */
module Scoring {
  import opened Wrappers
  import opened Text
  import opened Schema

  /** The excess of ratings at which the rating score saturates. */
  const MaxExcess := 1000

  /** The facts about `math.log` the model relies on. */
  ghost predicate LnLaws(ln: real -> real) {
    && ln(1.0) == 0.0
    && (forall x: real, y: real :: 1.0 <= x < y ==> ln(x) < ln(y))
  }

  function Min(a: real, b: real): real {
    if b < a then b else a
  }

  /** `calculate_rating_score`: a linear score capped at 0.2 below the desired count,
      a logarithmic one of the excess at or above it, times the weight. */
  function RatingScore(count: nat, threshold: int, weight: real, ln: real -> real): (r: real)
    requires LnLaws(ln)
    ensures count == threshold ==> r == 0.0
    ensures count >= threshold + MaxExcess ==> r == weight
  {
    if count < threshold then (count as real / threshold as real) * 0.2 * weight
    else
      var excess := count - threshold;
      LnPositive(ln, (MaxExcess + 1) as real);
      LogRatioBounds(excess, ln);
      Min(1.0, ln((excess + 1) as real) / ln((MaxExcess + 1) as real)) * weight
  }

  lemma LnPositive(ln: real -> real, x: real)
    requires LnLaws(ln) && x > 1.0
    ensures ln(x) > 0.0
  {
    assert ln(1.0) < ln(x);
  }

  lemma LnNonNegative(ln: real -> real, x: real)
    requires LnLaws(ln) && x >= 1.0
    ensures ln(x) >= 0.0
  {
    if x > 1.0 {
      LnPositive(ln, x);
    }
  }

  lemma ScaleBounds(m: real, w: real)
    requires 0.0 <= m <= 1.0 && 0.0 <= w
    ensures 0.0 <= m * w <= w
  {
  }

  lemma ScaleMonotone(a: real, b: real, w: real)
    requires a <= b && 0.0 <= w
    ensures a * w <= b * w
  {
  }

  lemma QuotientMonotone(a: real, b: real, c: real)
    requires a <= b && c > 0.0
    ensures a / c <= b / c
  {
  }

  lemma QuotientBounds(a: real, c: real)
    requires 0.0 <= a && c > 0.0
    ensures 0.0 <= a / c
    ensures a < c ==> a / c < 1.0
    ensures a >= c ==> a / c >= 1.0
  {
    var q := a / c;
    assert q * c == a;
  }

  /** Below the desired count the score lies in [0, 0.2 w), and is 0 only for a place
      without ratings or a zero weight. */
  lemma RatingScoreBelowThreshold(count: nat, threshold: int, weight: Weight, ln: real -> real)
    requires LnLaws(ln) && count < threshold
    ensures 0.0 <= RatingScore(count, threshold, weight, ln) <= 0.2 * weight
    ensures weight > 0.0 ==> RatingScore(count, threshold, weight, ln) < 0.2 * weight
    ensures RatingScore(count, threshold, weight, ln) == 0.0 <==> count == 0 || weight == 0.0
  {
    var q := count as real / threshold as real;
    QuotientBounds(count as real, threshold as real);
    assert RatingScore(count, threshold, weight, ln) == q * 0.2 * weight;
    assert q * 0.2 * weight == q * (0.2 * weight);
    ScaleBounds(q, 0.2 * weight);
    if weight > 0.0 {
      assert q * (0.2 * weight) < 1.0 * (0.2 * weight);
    }
    if count > 0 && weight > 0.0 {
      assert q > 0.0;
      assert q * (0.2 * weight) > 0.0;
    }
  }

  /** The saturating ratio of the logarithms, in [0, 1]. */
  lemma LogRatioBounds(excess: nat, ln: real -> real)
    requires LnLaws(ln)
    ensures 0.0 < ln((MaxExcess + 1) as real)
    ensures var m := Min(1.0, ln((excess + 1) as real) / ln((MaxExcess + 1) as real));
      && 0.0 <= m <= 1.0
      && (excess == 0 ==> m == 0.0)
      && (excess >= MaxExcess ==> m == 1.0)
  {
    var top := ln((MaxExcess + 1) as real);
    var l := ln((excess + 1) as real);
    LnPositive(ln, (MaxExcess + 1) as real);
    LnNonNegative(ln, (excess + 1) as real);
    if excess > MaxExcess {
      assert top < l;
    }
    QuotientBounds(l, top);
  }

  /** At or above the desired count the score lies in [0, w]; it is 0 at exactly the
      desired count and reaches w once the excess is at least 1000. */
  lemma RatingScoreAtOrAboveThreshold(count: nat, threshold: int, weight: Weight, ln: real -> real)
    requires LnLaws(ln) && count >= threshold
    ensures 0.0 <= RatingScore(count, threshold, weight, ln) <= weight
    ensures count == threshold ==> RatingScore(count, threshold, weight, ln) == 0.0
    ensures count - threshold >= MaxExcess ==> RatingScore(count, threshold, weight, ln) == weight
  {
    var excess: nat := count - threshold;
    LogRatioBounds(excess, ln);
    var m := Min(1.0, ln((excess + 1) as real) / ln((MaxExcess + 1) as real));
    assert RatingScore(count, threshold, weight, ln) == m * weight;
    ScaleBounds(m, weight);
  }

  /** Above the desired count more ratings never lower the score. */
  lemma RatingScoreMonotoneAbove(c1: nat, c2: nat, threshold: int, weight: Weight, ln: real -> real)
    requires LnLaws(ln) && threshold <= c1 <= c2
    ensures RatingScore(c1, threshold, weight, ln) <= RatingScore(c2, threshold, weight, ln)
  {
    var top := ln((MaxExcess + 1) as real);
    LnPositive(ln, (MaxExcess + 1) as real);
    var l1, l2 := ln((c1 - threshold + 1) as real), ln((c2 - threshold + 1) as real);
    if c1 < c2 {
      assert l1 < l2;
    }
    assert RatingScore(c1, threshold, weight, ln) == Min(1.0, l1 / top) * weight;
    assert RatingScore(c2, threshold, weight, ln) == Min(1.0, l2 / top) * weight;
    QuotientMonotone(l1, l2, top);
    ScaleMonotone(Min(1.0, l1 / top), Min(1.0, l2 / top), weight);
  }

  /** The score drops when the count reaches the desired one: one rating short scores
      more than meeting it exactly (for a positive weight and a threshold of at least 2). */
  lemma RatingScoreDropsAtThreshold(threshold: nat, weight: Weight, ln: real -> real)
    requires LnLaws(ln) && threshold >= 2 && weight > 0.0
    ensures RatingScore(threshold - 1, threshold, weight, ln) > RatingScore(threshold, threshold, weight, ln)
  {
    RatingScoreAtOrAboveThreshold(threshold, threshold, weight, ln);
    RatingScoreBelowThreshold(threshold - 1, threshold, weight, ln);
  }

  // ---------------------------------------------------------------- the place score

  const NoneParkingError := "'NoneType' object has no attribute 'model_fields'"

  /** Python's `value == False` for the value of each kind of field: true for `False`
      and for the integer 0, never for a list or a tuple. */
  predicate EqualsFalse(f: Field) {
    match f
    case Cuisines(_) => false
    case PartySize(pw) => pw.value == 0
    case TimeAndStay(_) => false
    case MinimumNumRatings(pw) => pw.value == 0
    case DietaryRequests(_) => false
    case Wants(_, pw) => !pw.value
  }

  /** A field the scorer passes over: the time and stay, the party size, and any field
      whose value equals False. */
  predicate Skipped(f: Field) {
    f.TimeAndStay? || EqualsFalse(f) || f.PartySize?
  }

  /** Every requested "vegan"/"vegetarian" tag is met by the place; other tags are
      ignored, so an empty list is accommodated. */
  predicate Accommodates(place: Place, requests: seq<string>) {
    && ("vegan" in requests ==> Contains(Lower(place.primaryTypeDisplayNameText), "vegan"))
    && ("vegetarian" in requests ==> place.servesVegetarianFood)
  }

  /** The number of names that start with "free". */
  function CountFree(names: seq<string>): (n: nat)
    ensures n <= |names|
  {
    if |names| == 0 then 0
    else CountFree(names[..|names| - 1]) + (if StartsWith(names[|names| - 1], "free") then 1 else 0)
  }

  lemma CountFreeStep(names: seq<string>, k: nat)
    requires k < |names|
    ensures CountFree(names[..k + 1]) == CountFree(names[..k]) + (if StartsWith(names[k], "free") then 1 else 0)
  {
    assert names[..k + 1][..k] == names[..k];
  }

  /** Three of the seven parking field names start with "free". */
  lemma ThreeFreeParkingNames()
    ensures CountFree(ParkingFieldNames) == 3
  {
    var names := ParkingFieldNames;
    assert names[..0] == [];
    assert StartsWith(names[0], "free");
    CountFreeStep(names, 0);
    assert !StartsWith(names[1], "free") by { assert names[1][0] != 'f'; }
    CountFreeStep(names, 1);
    assert StartsWith(names[2], "free");
    CountFreeStep(names, 2);
    assert !StartsWith(names[3], "free") by { assert names[3][0] != 'f'; }
    CountFreeStep(names, 3);
    assert !StartsWith(names[4], "free") by { assert names[4][0] != 'f'; }
    CountFreeStep(names, 4);
    assert StartsWith(names[5], "free");
    CountFreeStep(names, 5);
    assert !StartsWith(names[6], "free") by { assert names[6][0] != 'f'; }
    CountFreeStep(names, 6);
    assert names[..7] == names;
  }

  /** What one field adds to the score (an `AttributeError` for the parking options of a
      place that has none). */
  function Contribution(place: Place, f: Field, ln: real -> real): Result<real>
    requires LnLaws(ln)
  {
    if Skipped(f) then Ok(0.0)
    else
      match f
      case MinimumNumRatings(pw) => Ok(RatingScore(place.userRatingCount, pw.value, pw.weight, ln))
      case DietaryRequests(pw) => Ok(if Accommodates(place, pw.value) then 1.0 * pw.weight else 0.0)
      case Wants(w, pw) =>
        if w == FreeParking then
          if place.parkingOptions.None? then Err(NoneParkingError)
          else Ok(0.25 + 0.25 * CountFree(ParkingFieldNames) as real + pw.weight)
        else Ok(if HasAmenity(place, w) then pw.weight else 0.0)
      case _ => Ok(0.0)
  }

  /** The score accumulated over the fields in order; the first exception ends it. */
  function ScoreOf(place: Place, fs: seq<Field>, ln: real -> real): Result<real>
    requires LnLaws(ln)
  {
    if |fs| == 0 then Ok(0.0)
    else
      var s :- ScoreOf(place, fs[..|fs| - 1], ln);
      var c :- Contribution(place, fs[|fs| - 1], ln);
      Ok(s + c)
  }

  function PlaceScore(place: Place, u: UserPreferences, ln: real -> real): Result<real>
    requires LnLaws(ln)
  {
    ScoreOf(place, Fields(u), ln)
  }

  /** `calculate_place_score`: the loop over `model_dump()` with its skips; the
      per-field cases are in `FieldScore`. */
  method CalculatePlaceScore(place: Place, u: UserPreferences, ln: real -> real) returns (r: Result<real>)
    requires LnLaws(ln)
    ensures r == PlaceScore(place, u, ln)
  {
    var fields := Fields(u);
    var score := 0.0;
    var i := 0;
    while i < |fields|
      invariant 0 <= i <= |fields|
      invariant ScoreOf(place, fields[..i], ln) == Ok(score)
    {
      var f := fields[i];
      if f.TimeAndStay? || EqualsFalse(f) || f.PartySize? {
        ScoreOfSkipStep(place, fields, i, score, ln);
        i := i + 1;
        continue;
      }
      var c := FieldScore(place, f, ln);
      ScoreOfAddStep(place, fields, i, score, ln);
      if c.Err? {
        ScoreOfErrSticks(place, fields, i + 1, ln);
        return Err(c.error);
      }
      score := score + c.value;
      i := i + 1;
    }
    assert fields[..i] == fields;
    return Ok(score);
  }

  /** The body of the scorer's loop for one field it does not skip: the rating score, the
      dietary check, the parking count (an inner loop over the parking field names) and
      the single-flag amenities. */
  method FieldScore(place: Place, f: Field, ln: real -> real) returns (r: Result<real>)
    requires LnLaws(ln) && !Skipped(f)
    ensures r == Contribution(place, f, ln)
  {
    match f {
      case MinimumNumRatings(pw) =>
        var ratingScore := RatingScore(place.userRatingCount, pw.value, pw.weight, ln);
        return Ok(ratingScore);
      case DietaryRequests(pw) =>
        var reqScore := 0.0;
        var accommodates := true;
        if "vegan" in pw.value {
          if !Contains(Lower(place.primaryTypeDisplayNameText), "vegan") {
            accommodates := false;
          }
        }
        if "vegetarian" in pw.value {
          if !place.servesVegetarianFood {
            accommodates := false;
          }
        }
        if accommodates {
          reqScore := 1.0 * pw.weight;
        }
        return Ok(reqScore);
      case Wants(w, pw) =>
        if w == FreeParking {
          if place.parkingOptions.None? {
            return Err(NoneParkingError);
          }
          var numFree := 0;
          var k := 0;
          while k < |ParkingFieldNames|
            invariant 0 <= k <= |ParkingFieldNames|
            invariant numFree == CountFree(ParkingFieldNames[..k])
          {
            CountFreeStep(ParkingFieldNames, k);
            if StartsWith(ParkingFieldNames[k], "free") {
              numFree := numFree + 1;
            }
            k := k + 1;
          }
          assert ParkingFieldNames[..k] == ParkingFieldNames;
          var parkingScore := 0.25 + 0.25 * numFree as real;
          parkingScore := parkingScore + pw.weight;
          return Ok(parkingScore);
        } else if HasAmenity(place, w) {
          return Ok(pw.weight);
        }
        return Ok(0.0);
      case Cuisines(_) =>
        return Ok(0.0);
    }
  }

  // ---------------------------------------------------------------- properties

  /** A wish for a single-flag amenity adds its weight exactly when it is wished for and
      the place has the amenity. */
  lemma AmenityContribution(place: Place, a: Amenity, pw: PreferenceWeight<bool>, ln: real -> real)
    requires LnLaws(ln)
    ensures Contribution(place, Wants(a, pw), ln) == Ok(if pw.value && HasAmenity(place, a) then pw.weight else 0.0)
  {
  }

  /** Wishing for free parking adds 0.25 + 0.25 * 3 + w whatever the place's parking
      flags are, as long as it has parking options at all. */
  lemma FreeParkingContribution(place: Place, pw: PreferenceWeight<bool>, ln: real -> real)
    requires LnLaws(ln) && pw.value
    ensures place.parkingOptions.Some? ==> Contribution(place, Wants(FreeParking, pw), ln) == Ok(1.0 + pw.weight)
    ensures place.parkingOptions.None? ==> Contribution(place, Wants(FreeParking, pw), ln) == Err(NoneParkingError)
  {
    ThreeFreeParkingNames();
  }

  /** The dietary part adds the full weight exactly when the place accommodates every
      vegan/vegetarian request; an empty list always does. */
  lemma DietaryContribution(place: Place, pw: PreferenceWeight<seq<string>>, ln: real -> real)
    requires LnLaws(ln)
    ensures Contribution(place, DietaryRequests(pw), ln) == Ok(if Accommodates(place, pw.value) then pw.weight else 0.0)
    ensures pw.value == [] ==> Contribution(place, DietaryRequests(pw), ln) == Ok(pw.weight)
  {
  }

  /** The cuisines, party size and time fields, and a zero rating count, add nothing. */
  lemma NeutralFields(place: Place, f: Field, ln: real -> real)
    requires LnLaws(ln)
    requires f.Cuisines? || f.PartySize? || f.TimeAndStay? || (f.MinimumNumRatings? && f.count.value == 0)
    ensures Contribution(place, f, ln) == Ok(0.0)
  {
  }

  /** A field contributes a non-negative amount of at most 2. */
  lemma ContributionBounds(place: Place, f: Field, ln: real -> real)
    requires LnLaws(ln) && Contribution(place, f, ln).Ok?
    ensures 0.0 <= Contribution(place, f, ln).value <= 2.0
  {
    if !Skipped(f) {
      match f
      case MinimumNumRatings(pw) =>
        if place.userRatingCount < pw.value {
          RatingScoreBelowThreshold(place.userRatingCount, pw.value, pw.weight, ln);
        } else {
          RatingScoreAtOrAboveThreshold(place.userRatingCount, pw.value, pw.weight, ln);
        }
      case Wants(w, pw) =>
        if w == FreeParking {
          ThreeFreeParkingNames();
        }
      case _ =>
    }
  }

  /** Only the parking options of a place without any can make the scorer fail. */
  lemma ContributionErrIff(place: Place, f: Field, ln: real -> real)
    requires LnLaws(ln)
    ensures Contribution(place, f, ln).Err?
        <==> f.Wants? && f.want == FreeParking && f.wish.value && place.parkingOptions.None?
  {
  }

  lemma {:induction false} ScoreOfErrIff(place: Place, fs: seq<Field>, ln: real -> real)
    requires LnLaws(ln)
    ensures ScoreOf(place, fs, ln).Err?
        <==> exists j :: 0 <= j < |fs| && Contribution(place, fs[j], ln).Err?
  {
    if |fs| > 0 {
      var init := fs[..|fs| - 1];
      ScoreOfErrIff(place, init, ln);
      ContributionErrIff(place, fs[|fs| - 1], ln);
      if exists j :: 0 <= j < |fs| && Contribution(place, fs[j], ln).Err? {
        var j :| 0 <= j < |fs| && Contribution(place, fs[j], ln).Err?;
        if j < |fs| - 1 {
          assert init[j] == fs[j];
        }
      }
      if exists j :: 0 <= j < |init| && Contribution(place, init[j], ln).Err? {
        var j :| 0 <= j < |init| && Contribution(place, init[j], ln).Err?;
        assert fs[j] == init[j];
      }
    }
  }

  /** The score is an error exactly when free parking is wished for and the place has no
      parking options; it is then the `AttributeError` text. */
  lemma PlaceScoreErrIff(place: Place, u: UserPreferences, ln: real -> real)
    requires LnLaws(ln)
    ensures PlaceScore(place, u, ln).Err? <==> u.wantsFreeParking.value && place.parkingOptions.None?
  {
    var fs := Fields(u);
    ScoreOfErrIff(place, fs, ln);
    if u.wantsFreeParking.value && place.parkingOptions.None? {
      assert fs[7] == Wants(FreeParking, u.wantsFreeParking);
    }
    forall j | 0 <= j < |fs| && Contribution(place, fs[j], ln).Err?
      ensures u.wantsFreeParking.value && place.parkingOptions.None?
    {
      ContributionErrIff(place, fs[j], ln);
      if j >= 5 {
        assert fs[j] == Wants(AllWants[j - 5], Wish(u, AllWants[j - 5]));
      }
    }
  }

  lemma {:induction false} ScoreOfBounds(place: Place, fs: seq<Field>, ln: real -> real)
    requires LnLaws(ln) && ScoreOf(place, fs, ln).Ok?
    ensures 0.0 <= ScoreOf(place, fs, ln).value <= 2.0 * |fs| as real
  {
    if |fs| > 0 {
      ScoreOfBounds(place, fs[..|fs| - 1], ln);
      ContributionBounds(place, fs[|fs| - 1], ln);
    }
  }

  /** A score is never negative, and the sixteen fields add at most 32. */
  lemma PlaceScoreBounds(place: Place, u: UserPreferences, ln: real -> real)
    requires LnLaws(ln) && PlaceScore(place, u, ln).Ok?
    ensures 0.0 <= PlaceScore(place, u, ln).value <= 32.0
  {
    ScoreOfBounds(place, Fields(u), ln);
  }

  /** One step of the fold: the score of a prefix one field longer. */
  lemma ScoreOfPrefix(place: Place, fs: seq<Field>, k: nat, ln: real -> real)
    requires LnLaws(ln) && 0 < k <= |fs|
    ensures ScoreOf(place, fs[..k], ln)
         == (var s := ScoreOf(place, fs[..k - 1], ln);
             var c := Contribution(place, fs[k - 1], ln);
             if s.Err? then s else if c.Err? then Err(c.error) else Ok(s.value + c.value))
  {
    assert fs[..k][..k - 1] == fs[..k - 1];
  }

  /** A skipped field leaves the score of the prefix before it unchanged. */
  lemma ScoreOfSkipStep(place: Place, fs: seq<Field>, i: nat, score: real, ln: real -> real)
    requires LnLaws(ln) && i < |fs| && Skipped(fs[i]) && ScoreOf(place, fs[..i], ln) == Ok(score)
    ensures ScoreOf(place, fs[..i + 1], ln) == Ok(score)
  {
    ScoreOfPrefix(place, fs, i + 1, ln);
  }

  /** A field that is not skipped adds its contribution, or ends the score with its error. */
  lemma ScoreOfAddStep(place: Place, fs: seq<Field>, i: nat, score: real, ln: real -> real)
    requires LnLaws(ln) && i < |fs| && ScoreOf(place, fs[..i], ln) == Ok(score)
    ensures var c := Contribution(place, fs[i], ln);
            ScoreOf(place, fs[..i + 1], ln) == if c.Err? then Err(c.error) else Ok(score + c.value)
  {
    ScoreOfPrefix(place, fs, i + 1, ln);
  }

  /** Once a prefix of the fields fails, the whole score is that failure. */
  lemma {:induction false} ScoreOfErrSticks(place: Place, fs: seq<Field>, k: nat, ln: real -> real)
    requires LnLaws(ln) && k <= |fs| && ScoreOf(place, fs[..k], ln).Err?
    ensures ScoreOf(place, fs, ln) == ScoreOf(place, fs[..k], ln)
    decreases |fs| - k
  {
    if k < |fs| {
      ScoreOfPrefix(place, fs, k + 1, ln);
      ScoreOfErrSticks(place, fs, k + 1, ln);
    } else {
      assert fs[..k] == fs;
    }
  }

  /** Fields that each add 0.0 leave the score of the prefix before them unchanged. */
  lemma {:induction false} ScoreOfZeros(place: Place, fs: seq<Field>, a: nat, b: nat, ln: real -> real)
    requires LnLaws(ln) && a <= b <= |fs|
    requires forall j :: a <= j < b ==> Contribution(place, fs[j], ln) == Ok(0.0)
    requires ScoreOf(place, fs[..a], ln).Ok?
    ensures ScoreOf(place, fs[..b], ln) == ScoreOf(place, fs[..a], ln)
    decreases b - a
  {
    if a < b {
      ScoreOfPrefix(place, fs, a + 1, ln);
      ScoreOfZeros(place, fs, a + 1, b, ln);
    }
  }

  /** What each of the sixteen fields adds under the default preferences, for a place with
      parking options: 1.0 for the empty dietary list, 1.8 for free parking, 0.0 otherwise. */
  lemma DefaultContribution(place: Place, now: DateTime, k: nat, ln: real -> real)
    requires LnLaws(ln) && place.parkingOptions.Some? && k < 16
    ensures Contribution(place, Fields(DefaultUserPreferences(now))[k], ln)
         == Ok(if k == 4 then 1.0 else if k == 7 then 1.8 else 0.0)
  {
    var u := DefaultUserPreferences(now);
    var fs := Fields(u);
    if k >= 5 {
      assert fs[k] == Wants(AllWants[k - 5], Wish(u, AllWants[k - 5]));
      if k == 7 {
        FreeParkingContribution(place, u.wantsFreeParking, ln);
      }
    }
  }

  /** Sixteen fields that add nothing except 1.0 at the fifth and 1.8 at the eighth score 2.8. */
  lemma ProfileScore(place: Place, fs: seq<Field>, ln: real -> real)
    requires LnLaws(ln) && |fs| == 16
    requires forall j :: 0 <= j < 16 && j != 4 && j != 7 ==> Contribution(place, fs[j], ln) == Ok(0.0)
    requires Contribution(place, fs[4], ln) == Ok(1.0) && Contribution(place, fs[7], ln) == Ok(1.8)
    ensures ScoreOf(place, fs, ln) == Ok(2.8)
  {
    assert fs[..0] == [];
    ScoreOfZeros(place, fs, 0, 4, ln);
    assert ScoreOf(place, fs[..4], ln) == Ok(0.0);
    ScoreOfPrefix(place, fs, 5, ln);
    assert ScoreOf(place, fs[..5], ln) == Ok(1.0);
    ScoreOfZeros(place, fs, 5, 7, ln);
    ScoreOfPrefix(place, fs, 8, ln);
    assert ScoreOf(place, fs[..8], ln) == Ok(2.8);
    ScoreOfZeros(place, fs, 8, 16, ln);
    assert fs[..16] == fs;
  }

  /** Under the default preferences a place with parking options scores 2.8: the empty
      dietary list adds 1.0 and free parking adds 1.8; the zero rating count is skipped. */
  lemma DefaultPreferencesScore(place: Place, now: DateTime, ln: real -> real)
    requires LnLaws(ln) && place.parkingOptions.Some?
    ensures PlaceScore(place, DefaultUserPreferences(now), ln) == Ok(2.8)
  {
    var fs := Fields(DefaultUserPreferences(now));
    forall j | 0 <= j < 16 && j != 4 && j != 7
      ensures Contribution(place, fs[j], ln) == Ok(0.0)
    {
      DefaultContribution(place, now, j, ln);
    }
    DefaultContribution(place, now, 4, ln);
    DefaultContribution(place, now, 7, ln);
    ProfileScore(place, fs, ln);
  }
}
