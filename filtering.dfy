/** `filter_places` with its inner `check_place_against_restrictions`, the ranking of
    the accepted places by score, the search-parameter builders and the result
    envelope of the text-search tool. */
module Filtering {
  import opened Wrappers
  import opened Text
  import opened Schema
  import opened OpeningHours
  import opened Scoring
  import opened Ranking
  import opened Partitioning

  // ---------------------------------------------------------------- restrictions

  /** A restriction: a weighted preference (the desired time and stay is not one) whose
      weight is 1.0 and whose value is truthy in Python's sense (a non-zero number, a
      non-empty list, `True`). */
  predicate IsRestriction(f: Field) {
    match f
    case Cuisines(pw) => pw.weight == 1.0 && |pw.value| > 0
    case PartySize(pw) => pw.weight == 1.0 && pw.value != 0
    case TimeAndStay(_) => false
    case MinimumNumRatings(pw) => pw.weight == 1.0 && pw.value != 0
    case DietaryRequests(pw) => pw.weight == 1.0 && |pw.value| > 0
    case Wants(_, pw) => pw.weight == 1.0 && pw.value
  }

  /** `preferences_with_weight_one`: the restrictions among the fields, in field order. */
  function Restrictions(fs: seq<Field>): (rs: seq<Field>)
    ensures |rs| <= |fs|
    ensures forall f :: f in rs ==> f in fs && IsRestriction(f)
    ensures forall f :: f in fs && IsRestriction(f) ==> f in rs
  {
    if |fs| == 0 then []
    else
      var init := Restrictions(fs[..|fs| - 1]);
      var last := fs[|fs| - 1];
      assert fs == fs[..|fs| - 1] + [last];
      if IsRestriction(last) then init + [last] else init
  }

  /** Selecting restrictions distributes over concatenation, so the restrictions keep the
      fields' order: those of an earlier part all come before those of a later one. */
  lemma {:induction false} RestrictionsAppend(a: seq<Field>, b: seq<Field>)
    ensures Restrictions(a + b) == Restrictions(a) + Restrictions(b)
    decreases |b|
  {
    if |b| == 0 {
      assert a + b == a;
    } else {
      var init, last := b[..|b| - 1], b[|b| - 1];
      RestrictionsAppend(a, init);
      assert (a + b)[..|a + b| - 1] == a + init && (a + b)[|a + b| - 1] == last;
    }
  }

  /** A single field is a restriction or dropped. */
  lemma RestrictionsSingleton(f: Field)
    ensures Restrictions([f]) == if IsRestriction(f) then [f] else []
  {
    assert [f][..0] == [];
  }

  const LargeGroupReason := "This place has indicates they do not accomodate large groups (6 or more).\n"
  const VeganReason := "This place does not serve vegan food.\n"
  const VegetarianReason := "This place does not serve vegetarian food.\n"
  const FreeParkingReason := "This place does not have a free parking option.\n"

  function MinimumRatingsReason(n: int): string {
    "This place has less than your desired " + IntToString(n) + " ratings.\n"
  }

  function AmenityReason(a: Amenity): string {
    match a
    case FamilyFriendly => "This place has not indicated itself as family friendly.\n"
    case ChildrensMenu => "This place does not have a childrens menu.\n"
    case OutdoorSeating => "This place does not have outdoor seating.\n"
    case LiveMusic => "This place does not have live music.\n"
    case Dessert => "This place does not have dessert.\n"
    case Beer => "This place does not have beer.\n"
    case Wine => "This place does not have wine.\n"
    case Brunch => "This place does not have brunch.\n"
    case Cocktails => "This place does not have cocktails.\n"
    case Coffee => "This place does not have coffee.\n"
  }

  /** The reason lines one restriction adds for a place (the empty string when it is met);
      free parking reads the parking options, which fails for a place without any. */
  function FieldReason(place: Place, f: Field): Result<string> {
    match f
    case PartySize(pw) => Ok(if pw.value >= 6 && !place.goodForGroups then LargeGroupReason else "")
    case MinimumNumRatings(pw) =>
      Ok(if place.userRatingCount < pw.value then MinimumRatingsReason(pw.value) else "")
    case DietaryRequests(pw) =>
      Ok(if "vegetarian" in pw.value || "vegan" in pw.value then
           (if "vegan" in pw.value && !Contains(Lower(place.primaryTypeDisplayNameText), "vegan")
            then VeganReason else "")
           + (if "vegetarian" in pw.value && !place.servesVegetarianFood then VegetarianReason else "")
         else "")
    case Wants(w, _) =>
      if w == FreeParking then
        if place.parkingOptions.None? then Err(NoneParkingError)
        else Ok(if true in ParkingValues(place.parkingOptions.value) then "" else FreeParkingReason)
      else Ok(if HasAmenity(place, w) then "" else AmenityReason(w))
    case _ => Ok("")
  }

  /** When a place meets a restriction, stated without the reason texts: a party of six
      or more needs a place good for groups, the ratings must reach the desired count,
      the vegan/vegetarian requests must be accommodated, free parking needs some parking
      flag (any, paid ones included), and an amenity needs its flag. */
  predicate Meets(place: Place, f: Field) {
    match f
    case PartySize(pw) => pw.value < 6 || place.goodForGroups
    case MinimumNumRatings(pw) => place.userRatingCount >= pw.value
    case DietaryRequests(pw) => Accommodates(place, pw.value)
    case Wants(w, _) =>
      if w == FreeParking then place.parkingOptions.Some? && true in ParkingValues(place.parkingOptions.value)
      else HasAmenity(place, w)
    case _ => true
  }

  /** The reasons of the restrictions in order, concatenated; the first failure ends it. */
  function Reasons(place: Place, rs: seq<Field>): Result<string> {
    if |rs| == 0 then Ok("")
    else
      var init :- Reasons(place, rs[..|rs| - 1]);
      var last :- FieldReason(place, rs[|rs| - 1]);
      Ok(init + last)
  }

  /** `check_place_against_restrictions`: the restrictions' reasons, then the opening-hours
      message when the stay does not fit; valid exactly when nothing was added. */
  function RestrictionCheck(place: Place, u: UserPreferences): Result<(bool, string)> {
    var fieldReasons :- Reasons(place, Restrictions(Fields(u)));
    var hours :- FitsOpenHours(place, u.desiredTimeAndStayDuration);
    var reason := fieldReasons + (if hours.0 then "" else hours.1);
    Ok(if reason == "" then (true, "") else (false, reason))
  }

  /** The body of the restriction loop for one restriction: the reason lines it adds. */
  method CheckRestriction(place: Place, f: Field) returns (r: Result<string>)
    ensures r == FieldReason(place, f)
  {
    var invalidReason := "";
    assert "" + VeganReason == VeganReason && "" + VegetarianReason == VegetarianReason;
    assert VeganReason + "" == VeganReason && "" + LargeGroupReason == LargeGroupReason;
    assert "" + FreeParkingReason == FreeParkingReason;
    match f {
      case PartySize(pw) =>
        if pw.value >= 6 && !place.goodForGroups {
          invalidReason := invalidReason + LargeGroupReason;
        }
        return Ok(invalidReason);
      case MinimumNumRatings(pw) =>
        if place.userRatingCount < pw.value {
          assert "" + MinimumRatingsReason(pw.value) == MinimumRatingsReason(pw.value);
          invalidReason := invalidReason + MinimumRatingsReason(pw.value);
        }
        return Ok(invalidReason);
      case DietaryRequests(pw) =>
        if "vegetarian" in pw.value || "vegan" in pw.value {
          if "vegan" in pw.value {
            if !Contains(Lower(place.primaryTypeDisplayNameText), "vegan") {
              invalidReason := invalidReason + VeganReason;
            }
          }
          ghost var veganPart := invalidReason;
          assert veganPart == if "vegan" in pw.value && !Contains(Lower(place.primaryTypeDisplayNameText), "vegan")
                              then VeganReason else "";
          if "vegetarian" in pw.value {
            if !place.servesVegetarianFood {
              invalidReason := invalidReason + VegetarianReason;
            }
          }
          assert invalidReason == veganPart
            + (if "vegetarian" in pw.value && !place.servesVegetarianFood then VegetarianReason else "");
        }
        return Ok(invalidReason);
      case Wants(w, _) =>
        if w == FreeParking {
          if place.parkingOptions.None? {
            return Err(NoneParkingError);
          }
          var hasFreeOption := true in ParkingValues(place.parkingOptions.value);
          if !hasFreeOption {
            invalidReason := invalidReason + FreeParkingReason;
          }
        } else if !HasAmenity(place, w) {
          assert "" + AmenityReason(w) == AmenityReason(w);
          invalidReason := invalidReason + AmenityReason(w);
        }
        return Ok(invalidReason);
      case Cuisines(_) =>
      case TimeAndStay(_) =>
    }
    return Ok(invalidReason);
  }

  /** `check_place_against_restrictions`: appends each restriction's reasons to the
      invalid reason in field order, then the opening-hours message. */
  method CheckPlaceAgainstRestrictions(place: Place, u: UserPreferences) returns (r: Result<(bool, string)>)
    ensures r == RestrictionCheck(place, u)
  {
    var restrictions := Restrictions(Fields(u));
    var invalidReason := "";
    var i := 0;
    while i < |restrictions|
      invariant 0 <= i <= |restrictions|
      invariant Reasons(place, restrictions[..i]) == Ok(invalidReason)
    {
      ReasonsPrefix(place, restrictions, i + 1);
      var reason := CheckRestriction(place, restrictions[i]);
      if reason.Err? {
        ReasonsErrSticks(place, restrictions, i + 1);
        return Err(reason.error);
      }
      invalidReason := invalidReason + reason.value;
      i := i + 1;
    }
    assert restrictions[..i] == restrictions;
    assert invalidReason + "" == invalidReason;
    var hours := CheckIfUserStayFitsOpenHours(place, u.desiredTimeAndStayDuration);
    if hours.Err? {
      return Err(hours.error);
    }
    if !hours.value.0 {
      invalidReason := invalidReason + hours.value.1;
    }
    if invalidReason == "" {
      return Ok((true, ""));
    }
    return Ok((false, invalidReason));
  }

  lemma ReasonsPrefix(place: Place, rs: seq<Field>, k: nat)
    requires 0 < k <= |rs|
    ensures Reasons(place, rs[..k])
         == (var s := Reasons(place, rs[..k - 1]);
             var c := FieldReason(place, rs[k - 1]);
             if s.Err? then s else if c.Err? then Err(c.error) else Ok(s.value + c.value))
  {
    assert rs[..k][..k - 1] == rs[..k - 1];
  }

  lemma {:induction false} ReasonsErrSticks(place: Place, rs: seq<Field>, k: nat)
    requires k <= |rs| && Reasons(place, rs[..k]).Err?
    ensures Reasons(place, rs) == Reasons(place, rs[..k])
    decreases |rs| - k
  {
    if k < |rs| {
      ReasonsPrefix(place, rs, k + 1);
      ReasonsErrSticks(place, rs, k + 1);
    } else {
      assert rs[..k] == rs;
    }
  }

  // ---------------------------------------------------------------- restriction properties

  /** One restriction adds nothing exactly when the place meets it; it fails only for
      wished-for free parking at a place without parking options. */
  lemma FieldReasonIff(place: Place, f: Field)
    ensures FieldReason(place, f).Err? <==> f.Wants? && f.want == FreeParking && place.parkingOptions.None?
    ensures FieldReason(place, f).Ok? ==> (FieldReason(place, f).value == "" <==> Meets(place, f))
  {
    match f
    case MinimumNumRatings(pw) =>
      assert |MinimumRatingsReason(pw.value)| > 0;
    case DietaryRequests(pw) =>
      var veg := "vegan" in pw.value && !Contains(Lower(place.primaryTypeDisplayNameText), "vegan");
      var vgt := "vegetarian" in pw.value && !place.servesVegetarianFood;
      assert |(if veg then VeganReason else "") + (if vgt then VegetarianReason else "")| > 0 <==> veg || vgt;
    case Wants(w, _) =>
      if w != FreeParking {
        assert |AmenityReason(w)| > 0;
      }
    case _ =>
  }

  /** The loop fails exactly when one restriction fails. */
  lemma {:induction false} ReasonsErrIff(place: Place, rs: seq<Field>)
    ensures Reasons(place, rs).Err? <==> exists j :: 0 <= j < |rs| && FieldReason(place, rs[j]).Err?
  {
    if |rs| > 0 {
      var init := rs[..|rs| - 1];
      ReasonsErrIff(place, init);
      if exists j :: 0 <= j < |rs| && FieldReason(place, rs[j]).Err? {
        var j :| 0 <= j < |rs| && FieldReason(place, rs[j]).Err?;
        if j < |init| {
          assert init[j] == rs[j];
        }
      }
      if exists j :: 0 <= j < |init| && FieldReason(place, init[j]).Err? {
        var j :| 0 <= j < |init| && FieldReason(place, init[j]).Err?;
        assert init[j] == rs[j];
      }
    }
  }

  /** The concatenated reasons are empty exactly when every restriction is met. */
  lemma {:induction false} ReasonsEmptyIff(place: Place, rs: seq<Field>)
    ensures Reasons(place, rs).Ok? ==> (Reasons(place, rs).value == "" <==> forall j :: 0 <= j < |rs| ==> Meets(place, rs[j]))
  {
    if |rs| > 0 && Reasons(place, rs).Ok? {
      var init := rs[..|rs| - 1];
      var last := rs[|rs| - 1];
      ReasonsEmptyIff(place, init);
      FieldReasonIff(place, last);
      assert forall j :: 0 <= j < |init| ==> init[j] == rs[j];
      if forall j :: 0 <= j < |rs| ==> Meets(place, rs[j]) {
        assert forall j :: 0 <= j < |init| ==> Meets(place, init[j]);
        assert Meets(place, last);
      }
    }
  }

  /** A place passes the restriction check exactly when it meets every restriction and the
      stay fits the opening hours; a rejected place always carries a non-empty reason. The
      check fails exactly when a failing restriction or the hours computation fails. */
  lemma RestrictionCheckValidIff(place: Place, u: UserPreferences)
    requires RestrictionCheck(place, u).Ok?
    ensures RestrictionCheck(place, u).value.0 <==> RestrictionCheck(place, u).value.1 == ""
    ensures RestrictionCheck(place, u).value.0
        <==> (forall f :: f in Restrictions(Fields(u)) ==> Meets(place, f))
             && FitsOpenHours(place, u.desiredTimeAndStayDuration).value.0
  {
    var rs := Restrictions(Fields(u));
    ReasonsErrIff(place, rs);
    ReasonsEmptyIff(place, rs);
    ReasonEmptyIffFits(place, u.desiredTimeAndStayDuration);
    if forall j :: 0 <= j < |rs| ==> Meets(place, rs[j]) {
      forall f | f in rs ensures Meets(place, f) {
        var j :| 0 <= j < |rs| && rs[j] == f;
      }
    }
  }

  /** A party smaller than six is never rejected, whatever the place. */
  lemma SmallPartiesPass(place: Place, pw: PreferenceWeight<int>)
    requires pw.value < 6
    ensures FieldReason(place, PartySize(pw)) == Ok("")
  {
  }

  /** A required free-parking option is satisfied by any parking flag that is true, so a
      place with only a paid parking lot passes. */
  lemma PaidParkingPasses(place: Place, pw: PreferenceWeight<bool>)
    requires place.parkingOptions.Some? && place.parkingOptions.value.paidParkingLot
    ensures FieldReason(place, Wants(FreeParking, pw)) == Ok("")
  {
    assert ParkingValues(place.parkingOptions.value)[1] == true;
  }

  /** Among the default fields only the party size (index 1) is a restriction. */
  lemma DefaultRestrictionFields(now: DateTime)
    ensures forall k :: 0 <= k < |Fields(DefaultUserPreferences(now))| ==>
      (IsRestriction(Fields(DefaultUserPreferences(now))[k]) <==> k == 1)
  {
    var u := DefaultUserPreferences(now);
    var fs := Fields(u);
    forall k | 0 <= k < |fs| ensures IsRestriction(fs[k]) <==> k == 1 {
      if k >= 5 {
        assert fs[k] == Wants(AllWants[k - 5], Wish(u, AllWants[k - 5]));
      }
    }
  }

  /** Under the default preferences the only restriction is the party size of one, so a
      place is judged by its opening hours alone (even one without parking options). */
  lemma DefaultPreferencesRestrictOnlyByHours(place: Place, now: DateTime)
    ensures RestrictionCheck(place, DefaultUserPreferences(now)) == FitsOpenHours(place, (now, 60))
  {
    var u := DefaultUserPreferences(now);
    var fs := Fields(u);
    var rs := Restrictions(fs);
    DefaultRestrictionFields(now);
    forall j | 0 <= j < |rs| ensures rs[j] == PartySize(PreferenceWeight(1, 1.0)) {
      assert rs[j] in rs;
      var k :| 0 <= k < |fs| && fs[k] == rs[j];
    }
    ReasonsErrIff(place, rs);
    ReasonsEmptyIff(place, rs);
    assert Reasons(place, rs) == Ok("");
    var hours := FitsOpenHours(place, (now, 60));
    if hours.Ok? {
      ReasonEmptyIffFits(place, (now, 60));
      assert "" + hours.value.1 == hours.value.1;
    }
  }

  // ---------------------------------------------------------------- partition and ranking

  type Rejected = (Place, string)

  /** The check applied to each place by the partition loop. */
  function RestrictionChecker(u: UserPreferences): Place -> Result<Verdict> {
    p => RestrictionCheck(p, u)
  }

  /** The list of (place, score) pairs that is sorted; the first failing score ends it. */
  function ScoreEach(valid: seq<Place>, u: UserPreferences, ln: real -> real): Result<seq<Scored<Place>>>
    requires LnLaws(ln)
  {
    if |valid| == 0 then Ok([])
    else
      var init :- ScoreEach(valid[..|valid| - 1], u, ln);
      var s :- PlaceScore(valid[|valid| - 1], u, ln);
      Ok(init + [Scored(valid[|valid| - 1], s, |valid| - 1)])
  }

  /** `filter_places`: the ranked accepted places and the rejected ones. */
  function FilterResult(places: seq<Place>, u: UserPreferences, ln: real -> real): Result<(seq<Place>, seq<Rejected>)>
    requires LnLaws(ln)
  {
    var parts :- Partition(places, RestrictionChecker(u));
    var scored :- ScoreEach(parts.0, u, ln);
    Ok((Items(SortByScore(scored)), parts.1))
  }

  /** `filter_places`: the partition loop, the scoring of the accepted places and the sort. */
  method FilterPlaces(places: seq<Place>, u: UserPreferences, ln: real -> real)
      returns (r: Result<(seq<Place>, seq<Rejected>)>)
    requires LnLaws(ln)
    ensures r == FilterResult(places, u, ln)
  {
    var validPlaces: seq<Place> := [];
    var invalidPlaces: seq<Rejected> := [];
    var i := 0;
    while i < |places|
      invariant 0 <= i <= |places|
      invariant Partition(places[..i], RestrictionChecker(u)) == Ok((validPlaces, invalidPlaces))
    {
      assert places[..i + 1][..i] == places[..i];
      var check := CheckPlaceAgainstRestrictions(places[i], u);
      if check.Err? {
        PartitionErrSticks(places, RestrictionChecker(u), i + 1);
        return Err(check.error);
      }
      if check.value.0 {
        validPlaces := validPlaces + [places[i]];
      } else {
        invalidPlaces := invalidPlaces + [(places[i], check.value.1)];
      }
      i := i + 1;
    }
    assert places[..i] == places;
    var scored: seq<Scored<Place>> := [];
    var j := 0;
    while j < |validPlaces|
      invariant 0 <= j <= |validPlaces|
      invariant ScoreEach(validPlaces[..j], u, ln) == Ok(scored)
    {
      assert validPlaces[..j + 1][..j] == validPlaces[..j];
      var score := CalculatePlaceScore(validPlaces[j], u, ln);
      if score.Err? {
        ScoreEachErrSticks(validPlaces, u, j + 1, ln);
        return Err(score.error);
      }
      scored := scored + [Scored(validPlaces[j], score.value, j)];
      j := j + 1;
    }
    assert validPlaces[..j] == validPlaces;
    var ranked := SortByScore(scored);
    return Ok((Items(ranked), invalidPlaces));
  }

  lemma {:induction false} ScoreEachErrSticks(valid: seq<Place>, u: UserPreferences, k: nat, ln: real -> real)
    requires LnLaws(ln) && k <= |valid| && ScoreEach(valid[..k], u, ln).Err?
    ensures ScoreEach(valid, u, ln) == ScoreEach(valid[..k], u, ln)
    decreases |valid| - k
  {
    if k < |valid| {
      assert valid[..k + 1][..k] == valid[..k];
      ScoreEachErrSticks(valid, u, k + 1, ln);
    } else {
      assert valid[..k] == valid;
    }
  }

  // ---------------------------------------------------------------- partition and ranking properties

  /** Every input place lands in exactly one of the two lists: the valid ones passed the
      restriction check, the invalid ones failed it with the reason they carry, which is
      never empty. */
  lemma PlacesPartition(places: seq<Place>, u: UserPreferences)
    requires Partition(places, RestrictionChecker(u)).Ok?
    ensures var (valid, invalid) := Partition(places, RestrictionChecker(u)).value;
      && multiset(valid) + multiset(Firsts(invalid)) == multiset(places)
      && (forall p :: p in valid ==> RestrictionCheck(p, u) == Ok((true, "")))
      && (forall i :: 0 <= i < |invalid| ==>
            RestrictionCheck(invalid[i].0, u) == Ok((false, invalid[i].1)) && invalid[i].1 != "")
  {
    var check := RestrictionChecker(u);
    PartitionSplits(places, check);
    PartitionVerdicts(places, check);
    var (valid, invalid) := Partition(places, check).value;
    forall p | p in valid ensures RestrictionCheck(p, u) == Ok((true, "")) {
      assert check(p) == RestrictionCheck(p, u);
      RestrictionCheckValidIff(p, u);
    }
    forall i | 0 <= i < |invalid| ensures invalid[i].1 != "" {
      assert check(invalid[i].0) == RestrictionCheck(invalid[i].0, u);
      RestrictionCheckValidIff(invalid[i].0, u);
    }
  }

  /** Filtering fails at the check stage exactly when the check of some place fails. */
  lemma PlacesPartitionOkIff(places: seq<Place>, u: UserPreferences)
    ensures Partition(places, RestrictionChecker(u)).Ok? <==> forall i :: 0 <= i < |places| ==> RestrictionCheck(places[i], u).Ok?
  {
    PartitionOkIff(places, RestrictionChecker(u));
  }

  /** Each accepted place is scored, in order, and tagged with its position. */
  lemma {:induction false} ScoreEachSpec(valid: seq<Place>, u: UserPreferences, ln: real -> real)
    requires LnLaws(ln) && ScoreEach(valid, u, ln).Ok?
    ensures var es := ScoreEach(valid, u, ln).value;
      && |es| == |valid|
      && forall i :: 0 <= i < |es| ==>
           PlaceScore(valid[i], u, ln).Ok? && es[i] == Scored(valid[i], PlaceScore(valid[i], u, ln).value, i)
  {
    if |valid| > 0 {
      var init := valid[..|valid| - 1];
      ScoreEachSpec(init, u, ln);
      assert forall i :: 0 <= i < |init| ==> init[i] == valid[i];
    }
  }

  /** The ranked places are the valid places of the partition, reordered by non-increasing
      score; the rejected ones are those of the partition, in input order. */
  lemma FilterRanking(places: seq<Place>, u: UserPreferences, ln: real -> real)
    requires LnLaws(ln) && FilterResult(places, u, ln).Ok?
    ensures Partition(places, RestrictionChecker(u)).Ok?
    ensures var (accepted, rejected) := FilterResult(places, u, ln).value;
      && rejected == Partition(places, RestrictionChecker(u)).value.1
      && multiset(accepted) == multiset(Partition(places, RestrictionChecker(u)).value.0)
      && (forall i :: 0 <= i < |accepted| ==> PlaceScore(accepted[i], u, ln).Ok?)
      && (forall i, j :: 0 <= i < j < |accepted| ==>
            PlaceScore(accepted[i], u, ln).value >= PlaceScore(accepted[j], u, ln).value)
  {
    var valid := Partition(places, RestrictionChecker(u)).value.0;
    var es := ScoreEach(valid, u, ln).value;
    var ranked := SortByScore(es);
    assert FilterResult(places, u, ln).value.0 == Items(ranked);
    RankedScores(valid, u, ln);
    ItemsSort(es);
    ScoreEachSpec(valid, u, ln);
    assert Items(es) == valid;
  }

  /** The sorted entries are ranked and each carries its place's score. */
  lemma RankedScores(valid: seq<Place>, u: UserPreferences, ln: real -> real)
    requires LnLaws(ln) && ScoreEach(valid, u, ln).Ok?
    ensures var ranked := SortByScore(ScoreEach(valid, u, ln).value);
      && Ranked(ranked)
      && forall i :: 0 <= i < |ranked| ==> PlaceScore(ranked[i].item, u, ln) == Ok(ranked[i].score)
  {
    var es := ScoreEach(valid, u, ln).value;
    ScoreEachSpec(valid, u, ln);
    SortRanked(es);
    var ranked := SortByScore(es);
    forall i | 0 <= i < |ranked| ensures PlaceScore(ranked[i].item, u, ln) == Ok(ranked[i].score) {
      assert ranked[i] in multiset(es);
      var k :| 0 <= k < |es| && es[k] == ranked[i];
    }
  }

  // ---------------------------------------------------------------- the tool's envelope

  /** The content and artifact of `google_maps_text_search_and_filter` given the outcome of
      `filter_places` on the places the search returned. */
  function SearchToolResult(r: Result<(seq<Place>, seq<Rejected>)>): (reply: (string, (seq<Place>, seq<Rejected>)))
    ensures r.Ok? ==> StartsWith(reply.0, "Obtained ") && reply.1 == r.value
    ensures r.Err? ==> StartsWith(reply.0, "Failed to get places: ") && reply.1 == ([], [])
  {
    match r
    case Ok(lists) =>
      ("Obtained " + NatToString(|lists.0|) + " places and " + NatToString(|lists.1|) + " invalid places!", lists)
    case Err(e) => ("Failed to get places: " + e, ([], []))
  }

  /** The content mentions "Failed" exactly when filtering raised, and then the artifact is
      two empty lists; otherwise the artifact is the filter's result. */
  lemma SearchToolFailedIff(r: Result<(seq<Place>, seq<Rejected>)>)
    ensures Contains(SearchToolResult(r).0, "Failed") <==> r.Err?
    ensures r.Err? ==> SearchToolResult(r).1 == ([], [])
    ensures r.Ok? ==> SearchToolResult(r).1 == r.value
  {
    var content := SearchToolResult(r).0;
    if r.Err? {
      assert content[..6] == "Failed";
    } else {
      var a, b := NatToString(|r.value.0|), NatToString(|r.value.1|);
      assert 'F' !in a && 'F' !in b;
      assert 'F' !in content;
      if Contains(content, "Failed") {
        ContainsChar(content, "Failed", 0);
      }
    }
  }

  // ---------------------------------------------------------------- search parameters

  /** A circle around the user's coordinates. */
  datatype Circle = Circle(latitude: real, longitude: real, radius: real)

  /** `locationBias`: a circle, or the empty dict when a direction is preferred. */
  datatype LocationBias = LocationBias(circle: Option<Circle>)

  /** The optional parameters of the text search; an absent key is `None`. */
  datatype SearchParameters = SearchParameters(
    locationBias: Option<LocationBias>,
    priceLevels: Option<string>,
    minRating: Option<real>)

  /** `get_location_bias`: a circle only when any direction will do. */
  function GetLocationBias(coords: (real, real), direction: string, radius: real): (b: LocationBias)
    ensures b.circle.Some? <==> direction == "any"
    ensures b.circle.Some? ==> b.circle.value == Circle(coords.0, coords.1, radius)
  {
    if direction != "any" then LocationBias(None)
    else LocationBias(Some(Circle(coords.0, coords.1, radius)))
  }

  /** `get_maps_text_search_parameters`: each key is present exactly when the state holds
      the corresponding information. */
  function GetMapsTextSearchParameters(s: AgentState): (p: SearchParameters)
    ensures p.locationBias.Some? <==> s.userCoordinates.Some?
    ensures p.priceLevels.Some? <==> s.preferredPriceLevel != "PRICE_LEVEL_UNSPECIFIED"
    ensures p.minRating.Some? <==> s.desiredStarRating > 0.0
    ensures p.priceLevels.Some? ==> p.priceLevels.value == s.preferredPriceLevel
    ensures p.minRating.Some? ==> p.minRating.value == s.desiredStarRating
    ensures p.locationBias.Some? ==>
      p.locationBias.value == GetLocationBias(s.userCoordinates.value, s.preferredDirection, s.desiredMaxDistanceMeters)
  {
    SearchParameters(
      if s.userCoordinates.Some?
      then Some(GetLocationBias(s.userCoordinates.value, s.preferredDirection, s.desiredMaxDistanceMeters))
      else None,
      if s.preferredPriceLevel != "PRICE_LEVEL_UNSPECIFIED" then Some(s.preferredPriceLevel) else None,
      if s.desiredStarRating > 0.0 then Some(s.desiredStarRating) else None)
  }
}
