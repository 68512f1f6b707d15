/** The data model of the food finder: opening hours, parking options, places,
    weighted user preferences, the state-updater output record, the agent state
    and its messages, the alias generator used when parsing places, and the
    flattening of `displayName.text` / `primaryTypeDisplayName.text`. */
module Schema {
  import opened Wrappers
  import opened Text

  // ---------------------------------------------------------------- time

  type MinuteOfDay = m: int | 0 <= m < 1440

  /** A naive Python `datetime` at minute resolution: the proleptic Gregorian ordinal
      of its date (0001-01-01 is 1, as `date.toordinal()`) and the minute of the day. */
  datatype DateTime = DateTime(ordinal: int, minuteOfDay: MinuteOfDay)

  /** `date.weekday()`: Monday is 0 and Sunday is 6; CPython computes it this way
      from the ordinal. */
  function Weekday(ordinal: int): (w: int)
    ensures 0 <= w < 7
  {
    (ordinal + 6) % 7
  }

  /** Day 1 of the proleptic calendar (1 January of year 1) was a Monday, and
      2024-10-10 (ordinal 739169) a Thursday. */
  lemma WeekdayAnchors()
    ensures Weekday(1) == 0
    ensures Weekday(739169) == 3
  {
  }

  /** A week later is the same weekday. */
  lemma WeekdayPeriodic(ordinal: int)
    ensures Weekday(ordinal + 7) == Weekday(ordinal)
  {
  }

  /** Minutes since the start of ordinal day 0: the order of `datetime` values. */
  function Instant(t: DateTime): int {
    t.ordinal * 1440 + t.minuteOfDay
  }

  /** A moment in a weekly schedule as the places data gives it; `day` is whatever
      number the data carries and is never converted. */
  datatype TimeInfo = TimeInfo(day: int, hour: int, minute: int)

  datatype OpenClosePeriod = OpenClosePeriod(open: TimeInfo, close: TimeInfo)

  datatype RegularOpeningHours = RegularOpeningHours(periods: seq<OpenClosePeriod>)

  // ---------------------------------------------------------------- places

  /** The seven parking flags, in declaration order. */
  datatype ParkingOptions = ParkingOptions(
    freeParkingLot: bool,
    paidParkingLot: bool,
    freeStreetParking: bool,
    paidStreetParking: bool,
    valetParking: bool,
    freeGarageParking: bool,
    paidGarageParking: bool)

  /** `ParkingOptions()`: every flag defaults to False. */
  function DefaultParkingOptions(): (p: ParkingOptions)
    ensures forall i :: 0 <= i < |ParkingValues(p)| ==> !ParkingValues(p)[i]
  {
    ParkingOptions(false, false, false, false, false, false, false)
  }

  /** `ParkingOptions.model_fields`, in declaration order. */
  const ParkingFieldNames: seq<string> := [
    "free_parking_lot", "paid_parking_lot", "free_street_parking", "paid_street_parking",
    "valet_parking", "free_garage_parking", "paid_garage_parking"]

  /** The flag values in the order of `ParkingFieldNames`. */
  function ParkingValues(p: ParkingOptions): (vs: seq<bool>)
    ensures |vs| == |ParkingFieldNames|
    ensures (true in vs) <==>
      (p.freeParkingLot || p.paidParkingLot || p.freeStreetParking || p.paidStreetParking
       || p.valetParking || p.freeGarageParking || p.paidGarageParking)
  {
    [p.freeParkingLot, p.paidParkingLot, p.freeStreetParking, p.paidStreetParking,
     p.valetParking, p.freeGarageParking, p.paidGarageParking]
  }

  datatype Coordinates = Coordinates(latitude: real, longitude: real)

  datatype ReviewText = ReviewText(text: string, languageCode: string)

  datatype Review = Review(
    name: string,
    relativePublishTimeDescription: string,
    rating: int,
    text: ReviewText,
    publishTime: string)

  /** A candidate venue, with the fields of the places search response. Optional
      fields whose Python default is None are `Option`s. */
  datatype Place = Place(
    name: string,
    types: seq<string>,
    nationalPhoneNumber: Option<string>,
    formattedAddress: string,
    location: Coordinates,
    rating: real,
    googleMapsUri: string,
    websiteUri: Option<string>,
    regularOpeningHours: RegularOpeningHours,
    priceLevel: string,
    userRatingCount: nat,
    displayNameText: string,
    primaryTypeDisplayNameText: string,
    reviews: seq<Review>,
    dineIn: bool,
    servesLunch: bool,
    servesDinner: bool,
    outdoorSeating: bool,
    liveMusic: bool,
    servesDessert: bool,
    servesBeer: bool,
    servesWine: bool,
    servesBrunch: bool,
    servesCocktails: bool,
    servesCoffee: bool,
    servesVegetarianFood: bool,
    goodForChildren: bool,
    menuForChildren: bool,
    goodForGroups: bool,
    parkingOptions: Option<ParkingOptions>)

  /** Building a `Place` from its required fields only: every amenity flag is False,
      the price level is unspecified and the phone, website and parking options are None. */
  function NewPlace(
    name: string, types: seq<string>, formattedAddress: string, location: Coordinates,
    rating: real, googleMapsUri: string, regularOpeningHours: RegularOpeningHours,
    userRatingCount: nat, displayNameText: string, primaryTypeDisplayNameText: string,
    reviews: seq<Review>): (p: Place)
    ensures p.name == name && p.types == types && p.formattedAddress == formattedAddress
    ensures p.location == location && p.rating == rating && p.googleMapsUri == googleMapsUri
    ensures p.regularOpeningHours == regularOpeningHours && p.userRatingCount == userRatingCount
    ensures p.displayNameText == displayNameText && p.reviews == reviews
    ensures p.primaryTypeDisplayNameText == primaryTypeDisplayNameText
    ensures p.nationalPhoneNumber.None? && p.websiteUri.None? && p.parkingOptions.None?
    ensures p.priceLevel == "PRICE_LEVEL_UNSPECIFIED"
    ensures forall a :: !HasAmenity(p, a)
    ensures !p.dineIn && !p.servesLunch && !p.servesDinner && !p.servesVegetarianFood && !p.goodForGroups
  {
    Place(name, types, None, formattedAddress, location, rating, googleMapsUri, None,
          regularOpeningHours, "PRICE_LEVEL_UNSPECIFIED", userRatingCount, displayNameText,
          primaryTypeDisplayNameText, reviews,
          false, false, false, false, false, false, false, false, false, false, false,
          false, false, false, false, None)
  }

  /** The yes/no wishes of `UserPreferences`, in declaration order. */
  datatype Want =
    | FamilyFriendly | ChildrensMenu | FreeParking | OutdoorSeating | LiveMusic
    | Dessert | Beer | Wine | Brunch | Cocktails | Coffee

  /** The ten wishes that are answered by one flag of the place. */
  type Amenity = w: Want | w != FreeParking witness FamilyFriendly

  function HasAmenity(p: Place, a: Amenity): bool {
    match a
    case FamilyFriendly => p.goodForChildren
    case ChildrensMenu => p.menuForChildren
    case OutdoorSeating => p.outdoorSeating
    case LiveMusic => p.liveMusic
    case Dessert => p.servesDessert
    case Beer => p.servesBeer
    case Wine => p.servesWine
    case Brunch => p.servesBrunch
    case Cocktails => p.servesCocktails
    case Coffee => p.servesCoffee
  }

  // ---------------------------------------------------------------- preferences

  /** A weight is validated to lie in [0, 1] (`Field(ge=0.0, le=1.0)`). */
  type Weight = w: real | 0.0 <= w <= 1.0 witness 1.0

  /** `PreferenceWeight(value=v)`: the weight defaults to 1.0. */
  datatype PreferenceWeight<T> = PreferenceWeight(value: T, weight: Weight)

  function DefaultWeighted<T>(value: T): (pw: PreferenceWeight<T>)
    ensures pw.value == value && pw.weight == 1.0
  {
    PreferenceWeight(value, 1.0)
  }

  /** `UserPreferences`. The desired time and stay duration is a plain pair, not a
      weighted preference. */
  datatype UserPreferences = UserPreferences(
    desiredCuisines: PreferenceWeight<seq<string>>,
    partySize: PreferenceWeight<int>,
    desiredTimeAndStayDuration: (DateTime, int),
    desiredMinimumNumRatings: PreferenceWeight<int>,
    dietaryRequests: PreferenceWeight<seq<string>>,
    wantsFamilyFriendly: PreferenceWeight<bool>,
    wantsChildrensMenu: PreferenceWeight<bool>,
    wantsFreeParking: PreferenceWeight<bool>,
    wantsOutdoorSeating: PreferenceWeight<bool>,
    wantsLiveMusic: PreferenceWeight<bool>,
    wantsDessert: PreferenceWeight<bool>,
    wantsBeer: PreferenceWeight<bool>,
    wantsWine: PreferenceWeight<bool>,
    wantsBrunch: PreferenceWeight<bool>,
    wantsCocktails: PreferenceWeight<bool>,
    wantsCoffee: PreferenceWeight<bool>)

  /** One field of `UserPreferences` (a tagged union over the preference kinds). */
  datatype Field =
    | Cuisines(cuisines: PreferenceWeight<seq<string>>)
    | PartySize(size: PreferenceWeight<int>)
    | TimeAndStay(stay: (DateTime, int))
    | MinimumNumRatings(count: PreferenceWeight<int>)
    | DietaryRequests(requests: PreferenceWeight<seq<string>>)
    | Wants(want: Want, wish: PreferenceWeight<bool>)

  function FieldName(f: Field): string {
    match f
    case Cuisines(_) => "desired_cuisines"
    case PartySize(_) => "party_size"
    case TimeAndStay(_) => "desired_time_and_stay_duration"
    case MinimumNumRatings(_) => "desired_minimum_num_ratings"
    case DietaryRequests(_) => "dietary_requests"
    case Wants(w, _) => WantName(w)
  }

  function WantName(w: Want): string {
    match w
    case FamilyFriendly => "wants_family_friendly"
    case ChildrensMenu => "wants_childrens_menu"
    case FreeParking => "wants_free_parking"
    case OutdoorSeating => "wants_outdoor_seating"
    case LiveMusic => "wants_live_music"
    case Dessert => "wants_dessert"
    case Beer => "wants_beer"
    case Wine => "wants_wine"
    case Brunch => "wants_brunch"
    case Cocktails => "wants_cocktails"
    case Coffee => "wants_coffee"
  }

  const AllWants: seq<Want> := [
    FamilyFriendly, ChildrensMenu, FreeParking, OutdoorSeating, LiveMusic,
    Dessert, Beer, Wine, Brunch, Cocktails, Coffee]

  function Wish(u: UserPreferences, w: Want): PreferenceWeight<bool> {
    match w
    case FamilyFriendly => u.wantsFamilyFriendly
    case ChildrensMenu => u.wantsChildrensMenu
    case FreeParking => u.wantsFreeParking
    case OutdoorSeating => u.wantsOutdoorSeating
    case LiveMusic => u.wantsLiveMusic
    case Dessert => u.wantsDessert
    case Beer => u.wantsBeer
    case Wine => u.wantsWine
    case Brunch => u.wantsBrunch
    case Cocktails => u.wantsCocktails
    case Coffee => u.wantsCoffee
  }

  /** The fields of `UserPreferences` in declaration order: the order in which
      `model_fields` and `model_dump()` list them. */
  function Fields(u: UserPreferences): (fs: seq<Field>)
    ensures |fs| == 16
    ensures forall i :: 5 <= i < 16 ==> fs[i] == Wants(AllWants[i - 5], Wish(u, AllWants[i - 5]))
    ensures fs[0] == Cuisines(u.desiredCuisines) && fs[1] == PartySize(u.partySize)
      && fs[2] == TimeAndStay(u.desiredTimeAndStayDuration)
      && fs[3] == MinimumNumRatings(u.desiredMinimumNumRatings) && fs[4] == DietaryRequests(u.dietaryRequests)
    ensures forall i :: 0 <= i < 16 ==> FieldName(fs[i]) == UserPreferencesFieldNames[i]
  {
    [Cuisines(u.desiredCuisines), PartySize(u.partySize), TimeAndStay(u.desiredTimeAndStayDuration),
     MinimumNumRatings(u.desiredMinimumNumRatings), DietaryRequests(u.dietaryRequests)]
    + seq(11, i requires 0 <= i < 11 => Wants(AllWants[i], Wish(u, AllWants[i])))
  }

  const UserPreferencesFieldNames: seq<string> := [
    "desired_cuisines", "party_size", "desired_time_and_stay_duration",
    "desired_minimum_num_ratings", "dietary_requests", "wants_family_friendly",
    "wants_childrens_menu", "wants_free_parking", "wants_outdoor_seating", "wants_live_music",
    "wants_dessert", "wants_beer", "wants_wine", "wants_brunch", "wants_cocktails", "wants_coffee"]

  /** `UserPreferences()` with the given value for the import-time `datetime.now()`
      that the desired time defaults to. */
  function DefaultUserPreferences(now: DateTime): (u: UserPreferences)
    ensures u.partySize == PreferenceWeight(1, 1.0)
    ensures u.dietaryRequests == PreferenceWeight([], 1.0)
    ensures u.desiredMinimumNumRatings == PreferenceWeight(0, 0.3)
    ensures u.wantsFreeParking == PreferenceWeight(true, 0.8)
    ensures u.desiredCuisines == PreferenceWeight(["any"], 0.8)
    ensures u.desiredTimeAndStayDuration == (now, 60)
    ensures forall w :: w != FreeParking ==> !Wish(u, w).value && Wish(u, w).weight < 1.0
  {
    UserPreferences(
      PreferenceWeight(["any"], 0.8),
      PreferenceWeight(1, 1.0),
      (now, 60),
      PreferenceWeight(0, 0.3),
      PreferenceWeight([], 1.0),
      PreferenceWeight(false, 0.6),
      PreferenceWeight(false, 0.5),
      PreferenceWeight(true, 0.8),
      PreferenceWeight(false, 0.5),
      PreferenceWeight(false, 0.3),
      PreferenceWeight(false, 0.3),
      PreferenceWeight(false, 0.3),
      PreferenceWeight(false, 0.3),
      PreferenceWeight(false, 0.7),
      PreferenceWeight(false, 0.3),
      PreferenceWeight(false, 0.6))
  }

  /** Overwrites the field that `f` stands for. */
  function WithField(u: UserPreferences, f: Field): UserPreferences
  {
    match f
    case Cuisines(pw) => u.(desiredCuisines := pw)
    case PartySize(pw) => u.(partySize := pw)
    case TimeAndStay(st) => u.(desiredTimeAndStayDuration := st)
    case MinimumNumRatings(pw) => u.(desiredMinimumNumRatings := pw)
    case DietaryRequests(pw) => u.(dietaryRequests := pw)
    case Wants(w, pw) =>
      match w
      case FamilyFriendly => u.(wantsFamilyFriendly := pw)
      case ChildrensMenu => u.(wantsChildrensMenu := pw)
      case FreeParking => u.(wantsFreeParking := pw)
      case OutdoorSeating => u.(wantsOutdoorSeating := pw)
      case LiveMusic => u.(wantsLiveMusic := pw)
      case Dessert => u.(wantsDessert := pw)
      case Beer => u.(wantsBeer := pw)
      case Wine => u.(wantsWine := pw)
      case Brunch => u.(wantsBrunch := pw)
      case Cocktails => u.(wantsCocktails := pw)
      case Coffee => u.(wantsCoffee := pw)
  }

  // ---------------------------------------------------------------- state updater output

  /** `StateUpdaterOutputFormat`: six scalar fields, then the weighted preference fields
      of `UserPreferences` (everything but the desired time and stay duration). */
  datatype StateUpdaterOutput = StateUpdaterOutput(
    whenToEatSpecified: bool,
    lengthOfStay: int,
    preferredPriceLevel: string,
    desiredStarRating: int,
    preferredDirection: string,
    desiredMaxDistanceMeters: real,
    desiredCuisines: PreferenceWeight<seq<string>>,
    partySize: PreferenceWeight<int>,
    desiredMinimumNumRatings: PreferenceWeight<int>,
    dietaryRequests: PreferenceWeight<seq<string>>,
    wantsFamilyFriendly: PreferenceWeight<bool>,
    wantsChildrensMenu: PreferenceWeight<bool>,
    wantsFreeParking: PreferenceWeight<bool>,
    wantsOutdoorSeating: PreferenceWeight<bool>,
    wantsLiveMusic: PreferenceWeight<bool>,
    wantsDessert: PreferenceWeight<bool>,
    wantsBeer: PreferenceWeight<bool>,
    wantsWine: PreferenceWeight<bool>,
    wantsBrunch: PreferenceWeight<bool>,
    wantsCocktails: PreferenceWeight<bool>,
    wantsCoffee: PreferenceWeight<bool>)

  /** One key/value pair of `StateUpdaterOutputFormat.dict()`. */
  datatype OutputEntry =
    | WhenToEatSpecified(specified: bool)
    | LengthOfStay(minutes: int)
    | PreferredPriceLevel(level: string)
    | DesiredStarRating(stars: int)
    | PreferredDirection(direction: string)
    | DesiredMaxDistanceMeters(meters: real)
    | Preference(field: Field)

  function OutputEntryName(e: OutputEntry): string {
    match e
    case WhenToEatSpecified(_) => "when_to_eat_specified"
    case LengthOfStay(_) => "length_of_stay"
    case PreferredPriceLevel(_) => "preferred_price_level"
    case DesiredStarRating(_) => "desired_star_rating"
    case PreferredDirection(_) => "preferred_direction"
    case DesiredMaxDistanceMeters(_) => "desired_max_distance_meters"
    case Preference(f) => FieldName(f)
  }

  function OutputWish(o: StateUpdaterOutput, w: Want): PreferenceWeight<bool> {
    match w
    case FamilyFriendly => o.wantsFamilyFriendly
    case ChildrensMenu => o.wantsChildrensMenu
    case FreeParking => o.wantsFreeParking
    case OutdoorSeating => o.wantsOutdoorSeating
    case LiveMusic => o.wantsLiveMusic
    case Dessert => o.wantsDessert
    case Beer => o.wantsBeer
    case Wine => o.wantsWine
    case Brunch => o.wantsBrunch
    case Cocktails => o.wantsCocktails
    case Coffee => o.wantsCoffee
  }

  /** `response.dict()`: the entries in declaration order. */
  function Dump(o: StateUpdaterOutput): (es: seq<OutputEntry>)
    ensures |es| == 21
  {
    [WhenToEatSpecified(o.whenToEatSpecified), LengthOfStay(o.lengthOfStay),
     PreferredPriceLevel(o.preferredPriceLevel), DesiredStarRating(o.desiredStarRating),
     PreferredDirection(o.preferredDirection), DesiredMaxDistanceMeters(o.desiredMaxDistanceMeters),
     Preference(Cuisines(o.desiredCuisines)), Preference(PartySize(o.partySize)),
     Preference(MinimumNumRatings(o.desiredMinimumNumRatings)),
     Preference(DietaryRequests(o.dietaryRequests))]
    + seq(11, i requires 0 <= i < 11 => Preference(Wants(AllWants[i], OutputWish(o, AllWants[i]))))
  }

  /** `StateUpdaterOutputFormat`'s field names, in declaration order. */
  const StateUpdaterOutputFieldNames: seq<string> := [
    "when_to_eat_specified", "length_of_stay", "preferred_price_level", "desired_star_rating",
    "preferred_direction", "desired_max_distance_meters",
    "desired_cuisines", "party_size", "desired_minimum_num_ratings", "dietary_requests",
    "wants_family_friendly", "wants_childrens_menu", "wants_free_parking",
    "wants_outdoor_seating", "wants_live_music", "wants_dessert", "wants_beer", "wants_wine",
    "wants_brunch", "wants_cocktails", "wants_coffee"]

  /** The wants entries of the dump carry the wants' names, in `AllWants` order. */
  lemma DumpWantNames(o: StateUpdaterOutput)
    ensures forall i :: 10 <= i < 21 ==> OutputEntryName(Dump(o)[i]) == WantName(AllWants[i - 10])
  {
    var es := Dump(o);
    forall i | 10 <= i < 21 ensures OutputEntryName(es[i]) == WantName(AllWants[i - 10]) {
      assert es[i] == Preference(Wants(AllWants[i - 10], OutputWish(o, AllWants[i - 10])));
    }
  }

  /** The dump lists the entries under `StateUpdaterOutputFormat`'s field names. */
  lemma DumpNames(o: StateUpdaterOutput)
    ensures forall i :: 0 <= i < 21 ==> OutputEntryName(Dump(o)[i]) == StateUpdaterOutputFieldNames[i]
  {
    DumpWantNames(o);
    WantNamesListed();
    DumpLeadingNames(o);
  }

  /** The first ten entries carry the scalar and list-valued field names. */
  lemma DumpLeadingNames(o: StateUpdaterOutput)
    ensures forall i :: 0 <= i < 10 ==> OutputEntryName(Dump(o)[i]) == StateUpdaterOutputFieldNames[i]
  {
  }

  /** The wants' names close the field-name list, in `AllWants` order. */
  lemma WantNamesListed()
    ensures forall i :: 10 <= i < 21 ==> WantName(AllWants[i - 10]) == StateUpdaterOutputFieldNames[i]
  {
  }

  /** The first six entries of the dump are the scalars and the rest are weighted
      preferences. */
  lemma DumpLayout(o: StateUpdaterOutput)
    ensures forall i :: 0 <= i < 6 ==> !Dump(o)[i].Preference?
    ensures forall i :: 6 <= i < 21 ==> Dump(o)[i].Preference? && !Dump(o)[i].field.TimeAndStay?
  {
  }

  /** The names after the first six are exactly those of the weighted fields of
      `UserPreferences`, in the same order: the fields of any preferences without the
      desired time and stay. */
  lemma OutputTailIsPreferenceFields(o: StateUpdaterOutput, u: UserPreferences)
    ensures StateUpdaterOutputFieldNames[6..] == UserPreferencesFieldNames[..2] + UserPreferencesFieldNames[3..]
    ensures forall i :: 6 <= i < 21 ==>
      OutputEntryName(Dump(o)[i]) == FieldName(Fields(u)[if i < 8 then i - 6 else i - 5])
  {
    OutputTailNames();
    DumpNames(o);
    var fs := Fields(u);
    assert forall j :: 0 <= j < 16 ==> FieldName(fs[j]) == UserPreferencesFieldNames[j];
  }

  /** The tail of the output's name list, position by position, against the preference
      field names with the time and stay skipped. */
  lemma OutputTailNames()
    ensures StateUpdaterOutputFieldNames[6..] == UserPreferencesFieldNames[..2] + UserPreferencesFieldNames[3..]
    ensures forall i :: 6 <= i < 21 ==>
      StateUpdaterOutputFieldNames[i] == UserPreferencesFieldNames[if i < 8 then i - 6 else i - 5]
  {
    forall i | 6 <= i < 21
      ensures StateUpdaterOutputFieldNames[i] == UserPreferencesFieldNames[if i < 8 then i - 6 else i - 5]
    {
      assert StateUpdaterOutputFieldNames[i] == StateUpdaterOutputFieldNames[6..][i - 6];
    }
  }

  /** `UserPreferences.model_validate(pairs)`: every given preference field overwrites
      its default; a missing one keeps it. */
  function PreferencesFromEntries(entries: seq<OutputEntry>, base: UserPreferences): (u: UserPreferences)
    ensures (forall i :: 0 <= i < |entries| ==> !entries[i].Preference?) ==> u == base
  {
    if |entries| == 0 then base
    else
      var u := if entries[0].Preference? then WithField(base, entries[0].field) else base;
      PreferencesFromEntries(entries[1..], u)
  }

  /** The preferences a `StateUpdaterOutputFormat` describes, with the given desired time
      and stay duration (a field that record does not have). */
  function OutputPreferences(o: StateUpdaterOutput, stay: (DateTime, int)): UserPreferences {
    UserPreferences(
      o.desiredCuisines, o.partySize, stay, o.desiredMinimumNumRatings, o.dietaryRequests,
      o.wantsFamilyFriendly, o.wantsChildrensMenu, o.wantsFreeParking, o.wantsOutdoorSeating,
      o.wantsLiveMusic, o.wantsDessert, o.wantsBeer, o.wantsWine, o.wantsBrunch,
      o.wantsCocktails, o.wantsCoffee)
  }

  /** `base` with its first `k` preference fields (in output order) taken from `o`. */
  function Overlay(o: StateUpdaterOutput, base: UserPreferences, k: nat): UserPreferences {
    UserPreferences(
      if k > 0 then o.desiredCuisines else base.desiredCuisines,
      if k > 1 then o.partySize else base.partySize,
      base.desiredTimeAndStayDuration,
      if k > 2 then o.desiredMinimumNumRatings else base.desiredMinimumNumRatings,
      if k > 3 then o.dietaryRequests else base.dietaryRequests,
      if k > 4 then o.wantsFamilyFriendly else base.wantsFamilyFriendly,
      if k > 5 then o.wantsChildrensMenu else base.wantsChildrensMenu,
      if k > 6 then o.wantsFreeParking else base.wantsFreeParking,
      if k > 7 then o.wantsOutdoorSeating else base.wantsOutdoorSeating,
      if k > 8 then o.wantsLiveMusic else base.wantsLiveMusic,
      if k > 9 then o.wantsDessert else base.wantsDessert,
      if k > 10 then o.wantsBeer else base.wantsBeer,
      if k > 11 then o.wantsWine else base.wantsWine,
      if k > 12 then o.wantsBrunch else base.wantsBrunch,
      if k > 13 then o.wantsCocktails else base.wantsCocktails,
      if k > 14 then o.wantsCoffee else base.wantsCoffee)
  }

  /** Validating the entry at output position `6 + k` overlays one more field. */
  lemma OverlayStep(o: StateUpdaterOutput, base: UserPreferences, k: nat)
    requires k < 15
    ensures Dump(o)[6 + k].Preference?
    ensures WithField(Overlay(o, base, k), Dump(o)[6 + k].field) == Overlay(o, base, k + 1)
  {
    if k >= 4 {
      assert Dump(o)[6 + k] == Preference(Wants(AllWants[k - 4], OutputWish(o, AllWants[k - 4])));
    }
  }

  lemma {:induction false} OverlayRest(o: StateUpdaterOutput, base: UserPreferences, k: nat)
    requires k <= 15
    ensures PreferencesFromEntries(Dump(o)[6 + k..], Overlay(o, base, k)) == Overlay(o, base, 15)
    decreases 15 - k
  {
    var es := Dump(o)[6 + k..];
    if k < 15 {
      OverlayStep(o, base, k);
      assert es[0] == Dump(o)[6 + k] && es[1..] == Dump(o)[6 + (k + 1)..];
      OverlayRest(o, base, k + 1);
    } else {
      assert es == [];
    }
  }

  /** Validating the entries after the first six sets every preference of the output and
      leaves the desired time and stay duration at its default. */
  lemma PreferencesFromDump(o: StateUpdaterOutput, base: UserPreferences)
    ensures PreferencesFromEntries(Dump(o)[6..], base) == OutputPreferences(o, base.desiredTimeAndStayDuration)
  {
    OverlayRest(o, base, 0);
    assert Overlay(o, base, 0) == base;
  }

  // ---------------------------------------------------------------- messages and agent state

  datatype ToolCall = ToolCall(name: string, apiQuery: string)

  /** The tool's artifact: the ranked accepted places and the rejected ones with reasons. */
  type SearchArtifact = (seq<Place>, seq<(Place, string)>)

  /** The conversation messages; `CustomAIMessage` is an AI message that names the
      graph node it came from; a tool message carries the tool's artifact. */
  datatype Message =
    | HumanMessage(content: string)
    | AIMessage(content: string, toolCalls: seq<ToolCall>)
    | CustomAIMessage(content: string, originatingNode: string)
    | ToolMessage(content: string, artifact: SearchArtifact)

  /** `AgentState`. */
  datatype AgentState = AgentState(
    messages: seq<Message>,
    whenToEatSpecified: bool,
    datetimeExtracted: bool,
    preferredPriceLevel: string,
    desiredStarRating: real,
    userCoordinates: Option<(real, real)>,
    preferredDirection: string,
    desiredMaxDistanceMeters: real,
    userPreferences: UserPreferences,
    validPlaces: map<string, Place>,
    invalidPlaces: map<string, (Place, string)>,
    foundPlace: bool)

  /** A node's partial update of the state: the keys of the dict it returns. */
  datatype StateUpdate = StateUpdate(
    messages: seq<Message>,
    whenToEatSpecified: Option<bool>,
    datetimeExtracted: Option<bool>,
    preferredPriceLevel: Option<string>,
    desiredStarRating: Option<real>,
    preferredDirection: Option<string>,
    desiredMaxDistanceMeters: Option<real>,
    userPreferences: Option<UserPreferences>,
    validPlaces: Option<map<string, Place>>,
    invalidPlaces: Option<map<string, (Place, string)>>)

  const NoUpdate := StateUpdate([], None, None, None, None, None, None, None, None, None)

  function Pick<T>(update: Option<T>, current: T): T {
    if update.Some? then update.value else current
  }

  /** Merging a node's update into the state: `messages` is combined with `operator.add`
      (the new messages are appended), every other returned key replaces the old value. */
  function Apply(s: AgentState, u: StateUpdate): (r: AgentState)
    ensures r.messages == s.messages + u.messages
    ensures u.whenToEatSpecified.Some? ==> r.whenToEatSpecified == u.whenToEatSpecified.value
    ensures u.whenToEatSpecified.None? ==> r.whenToEatSpecified == s.whenToEatSpecified
    ensures u.datetimeExtracted.Some? ==> r.datetimeExtracted == u.datetimeExtracted.value
    ensures u.datetimeExtracted.None? ==> r.datetimeExtracted == s.datetimeExtracted
    ensures r.preferredPriceLevel == (if u.preferredPriceLevel.Some? then u.preferredPriceLevel.value else s.preferredPriceLevel)
    ensures r.desiredStarRating == (if u.desiredStarRating.Some? then u.desiredStarRating.value else s.desiredStarRating)
    ensures r.preferredDirection == (if u.preferredDirection.Some? then u.preferredDirection.value else s.preferredDirection)
    ensures r.desiredMaxDistanceMeters
      == (if u.desiredMaxDistanceMeters.Some? then u.desiredMaxDistanceMeters.value else s.desiredMaxDistanceMeters)
    ensures u.userPreferences.Some? ==> r.userPreferences == u.userPreferences.value
    ensures u.userPreferences.None? ==> r.userPreferences == s.userPreferences
    ensures r.validPlaces == (if u.validPlaces.Some? then u.validPlaces.value else s.validPlaces)
    ensures r.invalidPlaces == (if u.invalidPlaces.Some? then u.invalidPlaces.value else s.invalidPlaces)
    ensures r.userCoordinates == s.userCoordinates && r.foundPlace == s.foundPlace
  {
    AgentState(
      s.messages + u.messages,
      Pick(u.whenToEatSpecified, s.whenToEatSpecified),
      Pick(u.datetimeExtracted, s.datetimeExtracted),
      Pick(u.preferredPriceLevel, s.preferredPriceLevel),
      Pick(u.desiredStarRating, s.desiredStarRating),
      s.userCoordinates,
      Pick(u.preferredDirection, s.preferredDirection),
      Pick(u.desiredMaxDistanceMeters, s.desiredMaxDistanceMeters),
      Pick(u.userPreferences, s.userPreferences),
      Pick(u.validPlaces, s.validPlaces),
      Pick(u.invalidPlaces, s.invalidPlaces),
      s.foundPlace)
  }

  // ---------------------------------------------------------------- aliases

  /** The alias generator of `Place`: split on "_", keep the first piece, capitalize
      every later piece, and join without separators. */
  function Alias(name: string): (alias: string)
    ensures Split(name, '_') == [name] ==> alias == name
  {
    var words := Split(name, '_');
    words[0] + ConcatCapitalized(words[1..])
  }

  /** A name without "_" is its own alias. */
  lemma AliasWithoutUnderscore(name: string)
    requires '_' !in name
    ensures Alias(name) == name
  {
    SplitPrefix(name, "", '_');
    assert name + "" == name;
  }

  /** `''.join(word.capitalize() for word in words)`. */
  function ConcatCapitalized(words: seq<string>): string {
    if |words| == 0 then "" else Capitalize(words[0]) + ConcatCapitalized(words[1..])
  }

  /** The reverse mapping: every upper-case letter becomes "_" and its lower-case form. */
  function Snake(alias: string): string {
    if |alias| == 0 then ""
    else (if IsUpperLetter(alias[0]) then "_" + [ToLowerChar(alias[0])] else [alias[0]]) + Snake(alias[1..])
  }

  /** Field names as Python spells them: lower-case letters, digits and "_", where
      every "_" is followed by a letter. */
  predicate SnakeName(s: string) {
    && (forall i :: 0 <= i < |s| ==> IsLowerLetter(s[i]) || IsDigit(s[i]) || s[i] == '_')
    && (forall i :: 0 <= i < |s| && s[i] == '_' ==> i + 1 < |s| && IsLowerLetter(s[i + 1]))
  }

  lemma SnakeAppend(a: string, b: string)
    ensures Snake(a + b) == Snake(a) + Snake(b)
  {
    if |a| > 0 {
      assert (a + b)[0] == a[0];
      assert (a + b)[1..] == a[1..] + b;
      SnakeAppend(a[1..], b);
    } else {
      assert a + b == b;
    }
  }

  lemma {:induction false} LowerOfLowercase(s: string)
    requires forall i :: 0 <= i < |s| ==> !IsUpperLetter(s[i])
    ensures Lower(s) == s
  {
  }

  /** Prepending a character other than "_" prepends it to the alias. */
  lemma AliasCons(c: char, s: string)
    requires c != '_'
    ensures Alias([c] + s) == [c] + Alias(s)
  {
    var cs := [c] + s;
    assert cs[1..] == s;
    var rest := Split(s, '_');
    var words := Split(cs, '_');
    assert words == [[c] + rest[0]] + rest[1..];
    assert words[1..] == rest[1..];
  }

  /** The first piece of a split reaches up to the first separator. */
  lemma SplitHead(s: string, sep: char, k: nat)
    requires k <= |s| && (forall i :: 0 <= i < k ==> s[i] != sep) && (k == |s| || s[k] == sep)
    ensures Split(s, sep)[0] == s[..k]
  {
    if |s| > 0 && k > 0 {
      SplitHead(s[1..], sep, k - 1);
      assert s[..k] == [s[0]] + s[1..][..k - 1];
    }
  }

  /** Prepending "_" to a name that starts with a lower-case letter and continues
      without upper-case letters upper-cases that letter. */
  lemma AliasUnderscore(s: string)
    requires |s| > 0 && IsLowerLetter(s[0]) && forall i :: 0 <= i < |s| ==> !IsUpperLetter(s[i])
    ensures Alias("_" + s) == [ToUpperChar(s[0])] + Alias(s)[1..]
  {
    var rest := Split(s, '_');
    var w0, cc := rest[0], ConcatCapitalized(rest[1..]);
    assert Alias("_" + s) == Capitalize(w0) + cc by {
      SplitUnderscore(s);
    }
    assert |w0| > 0 && w0[0] == s[0] && forall i :: 0 <= i < |w0| ==> !IsUpperLetter(w0[i]) by {
      var k := FirstSeparator(s, '_');
      SplitHead(s, '_', k);
      assert w0 == s[..k];
    }
    assert Capitalize(w0) == [ToUpperChar(s[0])] + w0[1..] by {
      CapitalizeLowercase(w0);
    }
    assert Alias(s) == w0 + cc;
    Reassemble(Alias("_" + s), Alias(s), ToUpperChar(s[0]), w0, cc);
  }

  lemma Reassemble(x: string, y: string, c: char, w: string, tail: string)
    requires |w| > 0 && x == [c] + w[1..] + tail && y == w + tail
    ensures x == [c] + y[1..]
  {
    assert y[1..] == w[1..] + tail;
  }

  /** The alias of "_" + s capitalizes every piece of `s`. */
  lemma SplitUnderscore(s: string)
    ensures Alias("_" + s) == Capitalize(Split(s, '_')[0]) + ConcatCapitalized(Split(s, '_')[1..])
  {
    var us := "_" + s;
    assert us[1..] == s;
    var words := Split(us, '_');
    assert words == [""] + Split(s, '_');
    assert words[1..] == Split(s, '_');
  }

  /** Capitalizing a word without upper-case letters upper-cases only its first letter. */
  lemma CapitalizeLowercase(w: string)
    requires |w| > 0 && forall i :: 0 <= i < |w| ==> !IsUpperLetter(w[i])
    ensures Capitalize(w) == [ToUpperChar(w[0])] + w[1..]
  {
    LowerOfLowercase(w[1..]);
  }

  /** The index of the first `sep` in `s`, or `|s|` when there is none. */
  function FirstSeparator(s: string, sep: char): (k: nat)
    ensures k <= |s| && (forall i :: 0 <= i < k ==> s[i] != sep) && (k == |s| || s[k] == sep)
  {
    if |s| == 0 || s[0] == sep then 0 else 1 + FirstSeparator(s[1..], sep)
  }

  lemma SnakeNameTail(s: string)
    requires SnakeName(s) && |s| > 0
    ensures SnakeName(s[1..])
  {
    var t := s[1..];
    forall i | 0 <= i < |t| && t[i] == '_' ensures i + 1 < |t| && IsLowerLetter(t[i + 1]) {
      assert s[i + 1] == '_';
    }
  }

  /** The alias generator is undone by `Snake` on every Python-style field name. */
  lemma {:induction false} AliasRoundTrip(s: string)
    requires SnakeName(s)
    ensures Snake(Alias(s)) == s
    decreases |s|
  {
    if |s| == 0 {
      assert Alias(s) == "";
    } else {
      var t := s[1..];
      SnakeNameTail(s);
      AliasRoundTrip(t);
      if s[0] != '_' {
        RoundTripCons(s[0], t);
        assert s == [s[0]] + t;
      } else {
        RoundTripUnderscore(t);
        assert s == "_" + t;
      }
    }
  }

  lemma RoundTripCons(c: char, t: string)
    requires c != '_' && !IsUpperLetter(c) && Snake(Alias(t)) == t
    ensures Snake(Alias([c] + t)) == [c] + t
  {
    AliasCons(c, t);
    SnakeAppend([c], Alias(t));
  }

  lemma RoundTripUnderscore(t: string)
    requires |t| > 0 && IsLowerLetter(t[0]) && SnakeName(t) && Snake(Alias(t)) == t
    ensures Snake(Alias("_" + t)) == "_" + t
  {
    AliasUnderscore(t);
    var a := Alias(t);
    AliasHead(t);
    var tail := Snake(a[1..]);
    assert t == [t[0]] + tail by {
      assert a == [t[0]] + a[1..];
      SnakeAppend([t[0]], a[1..]);
      assert Snake([t[0]]) == [t[0]];
    }
    assert Snake(Alias("_" + t)) == "_" + [t[0]] + tail by {
      SnakeAppend([ToUpperChar(t[0])], a[1..]);
      assert Snake([ToUpperChar(t[0])]) == "_" + [t[0]];
    }
    PrependUnderscore(t, [t[0]], tail);
  }

  lemma PrependUnderscore(t: string, head: string, tail: string)
    requires t == head + tail
    ensures "_" + head + tail == "_" + t
  {
  }

  lemma AliasHead(s: string)
    requires |s| > 0 && s[0] != '_'
    ensures |Alias(s)| > 0 && Alias(s)[0] == s[0]
  {
    AliasCons(s[0], s[1..]);
    assert s == [s[0]] + s[1..];
  }

  /** The alias of a name made of words joined by "_": the first word, then every later
      word capitalized. */
  lemma AliasOfWords(words: seq<string>)
    requires |words| >= 1 && forall i :: 0 <= i < |words| ==> '_' !in words[i]
    ensures Alias(Join(words, "_")) == words[0] + ConcatCapitalized(words[1..])
  {
    SplitJoin(words, '_');
  }

  lemma RatingCountCapitalized()
    ensures ConcatCapitalized(["rating", "count"]) == "RatingCount"
  {
    var ws: seq<string> := ["rating", "count"];
    assert ws[1..] == ["count"] && ws[1..][1..] == [];
    assert Capitalize("rating") == "Rating" by {
      LowerOfLowercase("ating");
    }
    assert Capitalize("count") == "Count" by {
      LowerOfLowercase("ount");
    }
  }

  /** The generator turns `user_rating_count` (its words joined by "_") into
      `userRatingCount`, the alias `Place` also declares for it explicitly. */
  lemma UserRatingCountAlias(name: string)
    requires name == Join(["user", "rating", "count"], "_")
    ensures Alias(name) == "userRatingCount"
  {
    var ws: seq<string> := ["user", "rating", "count"];
    RatingCountCapitalized();
    assert Alias(Join(ws, "_")) == ws[0] + ConcatCapitalized(ws[1..]) by {
      assert '_' !in ws[0] && '_' !in ws[1] && '_' !in ws[2];
      AliasOfWords(ws);
    }
    assert ws[1..] == ["rating", "count"];
  }

  // ---------------------------------------------------------------- flattening

  datatype Json =
    | JNull
    | JBool(b: bool)
    | JNumber(r: real)
    | JString(s: string)
    | JArray(items: seq<Json>)
    | JObject(fields: map<string, Json>)

  /** The flat key that `Place.model_validate` fills in from a nested `text`. */
  function FlatKey(nested: string): string {
    nested + ".text"
  }

  /** `obj[flat] = obj[nested]["text"]` when `nested` is a key; `false` when that
      lookup raises (the value is not an object with a "text" key). */
  function CopyText(m: map<string, Json>, nested: string): (map<string, Json>, bool) {
    if nested !in m then (m, true)
    else
      var v := m[nested];
      if v.JObject? && "text" in v.fields then (m[FlatKey(nested) := v.fields["text"]], true)
      else (m, false)
  }

  /** What `Place.model_validate` does to the caller's dict before delegating; the
      second copy is not attempted when the first raises. */
  function Flattened(m: map<string, Json>): (map<string, Json>, bool) {
    var (m1, ok1) := CopyText(m, "displayName");
    if !ok1 then (m1, false) else CopyText(m1, "primaryTypeDisplayName")
  }

  /** A JSON object that is shared with, and changed in place for, the caller. */
  class JsonObject {
    var entries: map<string, Json>

    constructor (entries: map<string, Json>)
      ensures this.entries == entries
    {
      this.entries := entries;
    }

    /** Lines 265-268: writes the flat keys into this dict; `ok` is false where Python raises. */
    method FlattenDisplayNames() returns (ok: bool)
      modifies this
      ensures (entries, ok) == Flattened(old(entries))
    {
      ok := true;
      if "displayName" in entries {
        var v := entries["displayName"];
        if v.JObject? && "text" in v.fields {
          entries := entries[FlatKey("displayName") := v.fields["text"]];
        } else {
          ok := false;
          return;
        }
      }
      if "primaryTypeDisplayName" in entries {
        var v := entries["primaryTypeDisplayName"];
        if v.JObject? && "text" in v.fields {
          entries := entries[FlatKey("primaryTypeDisplayName") := v.fields["text"]];
        } else {
          ok := false;
        }
      }
    }
  }

  /** Flattening writes only the two flat keys; each is written exactly when its nested
      key is present and holds a "text", and a missing nested key leaves the dict alone. */
  lemma FlattenedFrame(m: map<string, Json>)
    ensures var (r, ok) := Flattened(m);
      && (forall k :: k != "displayName.text" && k != "primaryTypeDisplayName.text" ==>
            (k in r <==> k in m) && (k in m ==> r[k] == m[k]))
      && ("displayName" !in m && "primaryTypeDisplayName" !in m ==> r == m && ok)
      && (ok ==> forall n :: n in {"displayName", "primaryTypeDisplayName"} && n in m ==>
            m[n].JObject? && "text" in m[n].fields && FlatKey(n) in r && r[FlatKey(n)] == m[n].fields["text"])
  {
  }
}
