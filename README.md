# Food Finder — a verified model of the recommendation core

Food Finder is a chat agent that recommends restaurants. A LangGraph graph of five nodes
works as follows:

- a *state updater* turns the first user message into structured preferences;
- a *datetime extractor* can fill in the time of the visit;
- a *maps query formulator* writes a text query;
- a *team supervisor* calls a Google Places text-search tool and then answers the user;
- the tool filters the returned places against the user's restrictions, ranks the
  remaining ones by a preference score, and returns both lists.

This project models that core in Dafny and proves properties of it:

- `schema.dfy` (module `Schema`) holds the records and their defaults:
  - opening hours, parking options and places;
  - weighted preferences (`UserPreferences`) with the declaration order that
    `model_dump()` follows;
  - the state-updater output record;
  - the agent state, and the merge of a node's update into it, where `messages` is
    appended and every other key is replaced;
  - the `Place` alias generator, with its inverse and a round trip;
  - the `displayName.text` / `primaryTypeDisplayName.text` flattening done by
    `Place.model_validate`. This is a class whose method changes its JSON object in place.
- `opening_hours.dfy` (module `OpeningHours`) is the opening-hours matcher: a loop method
  proved equal to a specification function. Beside it are:
  - its error and message cases;
  - a characterisation of when a stay fits;
  - invariance under a one-week shift;
  - the sorted, duplicate-free list of opening windows in the "closed" message.
- `scoring.dfy` (module `Scoring`) holds the rating score and the preference scorer, proved
  equal to a fold over the preference fields, with bounds, the error case and the score
  under the default preferences.
- `filtering.dfy` (module `Filtering`) covers:
  - the restrictions (preferences with weight 1.0 and a truthy value) and the per-restriction
    reasons;
  - the restriction check, and the partition into accepted and rejected places;
  - the stable descending sort by score;
  - the tool's success/failure envelope;
  - the search-parameter builders.
- `partition.dfy` (module `Partitioning`) and `ranking.dfy` (module `Ranking`) are the generic
  partition and stable insertion ranking that `filter_places` uses.
- `agent.dfy` (module `Agent`) holds the graph:
  - the nodes, entry point and edges;
  - both routers;
  - each node's update, with the model replies passed in;
  - the supervisor's backward scan for the latest query;
  - the recommendation text;
  - `DEFAULT_AGENT_STATE` and `create_initial_state`;
  - a step function and whole runs.
- `text.dfy` (module `Text`) and `wrappers.dfy` (module `Wrappers`) hold string helpers and
  `Result`/`Option`.

Points where the model follows the code as written:

- The matcher compares the day numbers of the places data (which count from Sunday)
  directly with Python's `weekday()` (which counts from Monday). The model does the same.
  `OpeningHours.SameWeekdayPeriodAnchoredNextDay` shows the effect: a place open on the
  visit's own weekday is reported closed during its hours.
- The state updater overwrites the extracted `when_to_eat_specified` with the incoming value
  (`food_finder_agent.py:85`). It also rebuilds `user_preferences` from the model output
  with the import-time default stay (line 81), so `length_of_stay` is lost.
  `Agent.UpdaterMerge` states both. From the initial state the datetime extractor is
  therefore never reached (`Agent.ExtractorNeverReached`).
- Free parking passes the restriction when any parking flag is set, paid ones included
  (`Filtering.PaidParkingPasses`). The free-parking score counts the field *names* that
  start with "free", so it is always 0.25 + 0.75 + w for a place with parking options
  (`Scoring.FreeParkingContribution`). A place with no parking options raises
  `AttributeError` there, and the tool turns that into its "Failed to get places" reply.
- Python's `sorted` is stable. The model ranks with the original index as the tie-break.
- The "closed" message lists the opening windows sorted as strings, so "01:00 PM - 05:00 PM"
  comes before "09:00 AM - 12:00 PM" (`OpeningHours.WindowsSortAsText`).
- The rating score is discontinuous at the desired count: one rating short scores close to
  0.2 w, while meeting the count exactly scores 0 (`Scoring.RatingScoreDropsAtThreshold`).
  At or above the count the score reaches w, so its range is [0, w] with both ends included.

Inputs the code reads from the outside world are parameters of the model:

- `ln` is the natural logarithm, constrained by `LnLaws`: ln(1) = 0 and strictly increasing.
- `floatRepr` is Python's `repr` of the place's rating.
- `importTime` is the `datetime.now()` evaluated when `UserPreferences` is defined.
- `Replies` are the language model's outputs and the text search of each step. The search is a function of the call's query and the optional parameters that `GetMapsTextSearchParameters` builds from the state, the two parts of the request body.

## Model

| member | source | states |
|---|---|---|
| Schema.Weekday | backend/app/graph/tools/places_search.py:43 | `weekday()` of a date is in 0..6 (Monday 0) |
| Schema.WeekdayPeriodic | backend/app/graph/tools/places_search.py:43 | a date seven days later has the same weekday |
| Schema.WeekdayAnchors | backend/app/graph/tools/places_search.py:43 | 1 January of year 1 (ordinal 1) is a Monday (0) and 2024-10-10 (ordinal 739169) a Thursday (3) |
| Schema.DefaultParkingOptions | backend/app/schemas/schema.py:212-221 | every parking flag defaults to False |
| Schema.ParkingValues | backend/app/schemas/schema.py:212-221 | one value per declared parking field, and the list holds a True iff some parking flag is set |
| Schema.NewPlace | backend/app/schemas/schema.py:223-254 | the required fields are taken as given; the optional ones get their defaults (no phone, website or parking options, unspecified price level, every amenity flag False) |
| Schema.DefaultWeighted | backend/app/schemas/schema.py:294-306 | a preference weight defaults to 1.0 |
| Schema.Fields | backend/app/schemas/schema.py:308-326 | the 16 preference fields in declaration order: field i carries the i-th declared name, the first five are the cuisines, party size, time and stay, minimum ratings and dietary requests, and the eleven `wants_*` flags follow |
| Schema.DefaultUserPreferences | backend/app/schemas/schema.py:311-326 | the declared defaults: one diner at weight 1.0, no dietary requests at weight 1.0, no rating minimum, free parking wanted at weight 0.8, cuisine "any", a 60-minute stay from the import time, and every other amenity unwanted with weight below 1.0 |
| Schema.Dump | backend/app/schemas/schema.py:395-419 | the parsed output dumps to 21 entries |
| Schema.DumpNames | backend/app/schemas/schema.py:395-419 | entry i carries the name of the i-th declared output field |
| Schema.DumpLayout | backend/app/schemas/schema.py:395-419 | the first six entries are the scalar keys; the other fifteen are preference fields, and none is the time-and-stay field |
| Schema.OutputTailIsPreferenceFields | backend/app/schemas/schema.py:405-419 | the output's entries after the sixth carry the names of the preference fields, as `Schema.Fields` lists them, without `desired_time_and_stay_duration`, in the same order |
| Schema.PreferencesFromDump | backend/app/graph/food_finder_agent.py:80-81 | validating the last fifteen entries yields exactly the output's fifteen preference values, plus the base's time and stay |
| Schema.PreferencesFromEntries | backend/app/graph/food_finder_agent.py:81 | entries that are not preference fields leave the base preferences unchanged |
| Schema.Apply | backend/app/schemas/schema.py:333-335 | merging an update appends its messages (`operator.add`); for each of the other nine keys an update can return, a returned value replaces the old one and an omitted key keeps it; the coordinates and `found_place` are never changed |
| Schema.AliasRoundTrip | backend/app/schemas/schema.py:256-260 | for snake-case field names, reading the generated camel-case alias back gives the field name |
| Schema.Alias | backend/app/schemas/schema.py:257-260 | a name that splits on "_" into a single word is its own alias |
| Schema.AliasWithoutUnderscore | backend/app/schemas/schema.py:257-260 | a name without "_" is its own alias |
| Schema.AliasUnderscore | backend/app/schemas/schema.py:257-260 | a leading empty word is not capitalised, so the next word is |
| Schema.AliasOfWords | backend/app/schemas/schema.py:257-260 | a name made of words without "_" joined by "_" gets the first word followed by each later word capitalised |
| Schema.UserRatingCountAlias | backend/app/schemas/schema.py:235 | the generated alias of `user_rating_count` is `userRatingCount`, the alias the field also declares |
| Schema.SnakeAppend | backend/app/schemas/schema.py:257-260 | converting an alias back to snake case distributes over concatenation |
| Schema.JsonObject.FlattenDisplayNames | backend/app/schemas/schema.py:263-269 | the object is changed in place to the `Flattened` result of its old value, with a failure flag for a missing "text" |
| Schema.FlattenedFrame | backend/app/schemas/schema.py:263-269 | only the two ".text" keys change; without the nested names nothing changes; on success each flat key holds the nested "text" |
| OpeningHours.DecideOpenHours | backend/app/graph/tools/places_search.py:34-69 | the scan with early returns equals the matcher's specification outcome |
| OpeningHours.CheckIfUserStayFitsOpenHours | backend/app/graph/tools/places_search.py:34-69 | the returned pair is the verdict and message of that outcome |
| OpeningHours.MessageEmptyIffFits | backend/app/graph/tools/places_search.py:39-69 | the message is empty exactly for the fitting outcome |
| OpeningHours.ReasonEmptyIffFits | backend/app/graph/tools/places_search.py:34-69 | the verdict is True exactly when the reason is "" |
| OpeningHours.FitsIff | backend/app/graph/tools/places_search.py:54-63 | the stay fits iff some day period is the first to hold the start and the stay ends by its close |
| OpeningHours.DayPeriods | backend/app/graph/tools/places_search.py:42-43 | the periods kept are exactly those opening on the visit's weekday number or the next one |
| OpeningHours.DayPeriodsAppend | backend/app/graph/tools/places_search.py:42-43 | keeping periods distributes over concatenation, so the kept periods stay in data order |
| OpeningHours.DayPeriodsSingleton | backend/app/graph/tools/places_search.py:42-43 | one period is kept iff it opens on the visit's weekday number or the next one |
| OpeningHours.FirstContaining | backend/app/graph/tools/places_search.py:54-61 | a found period has an index inside the day list |
| OpeningHours.FirstContainingSome | backend/app/graph/tools/places_search.py:54-61 | the period found is the first to anchor and hold the start, and its close is the one used |
| OpeningHours.ScanRaises | backend/app/graph/tools/places_search.py:48-56 | a period with an hour or minute out of range raises once the scan reaches it |
| OpeningHours.ScanHits | backend/app/graph/tools/places_search.py:61-65 | the deciding period gives Fits or "closes early" at its close time |
| OpeningHours.ScanMisses | backend/app/graph/tools/places_search.py:67-69 | when no period holds the start, the outcome is "closed when you want to visit" with the day's periods |
| OpeningHours.OutcomeFromScan | backend/app/graph/tools/places_search.py:45-69 | with day periods present, the outcome is the scan's verdict or its error |
| OpeningHours.OnlyDayPeriodsMatter | backend/app/graph/tools/places_search.py:42-69 | two places with the same periods for the visit's day give the same answer |
| OpeningHours.DayPeriodsNone | backend/app/graph/tools/places_search.py:42-43 | with no period opening on either day, none is kept |
| OpeningHours.ClosedOnDay | backend/app/graph/tools/places_search.py:45-46 | then the answer is "closed on the day you want to visit" |
| OpeningHours.AnchorShift | backend/app/graph/tools/places_search.py:48-52 | anchoring a time a week later moves it by 7 × 1440 minutes, or raises the same error |
| OpeningHours.FirstContainingShift | backend/app/graph/tools/places_search.py:54-61 | the scan a week later finds the same period, with its close a week later |
| OpeningHours.DayOutcomeShift | backend/app/graph/tools/places_search.py:54-69 | the day's decision is unchanged by a one-week shift |
| OpeningHours.WeekShiftOutcome | backend/app/graph/tools/places_search.py:34-69 | the matcher's outcome is unchanged when the visit moves by one week |
| OpeningHours.WeekShiftInvariant | backend/app/graph/tools/places_search.py:34-69 | so is its returned pair |
| OpeningHours.SameWeekdayPeriodAnchoredNextDay | backend/app/graph/tools/places_search.py:16-20 | a single 9:00–17:00 period on the visit's weekday in the data's Sunday-based numbering is anchored on the next day, so a visit inside those hours is reported closed |
| OpeningHours.TwoDigits | backend/app/graph/tools/places_search.py:65 | `%I` and `%M` render as two digits |
| OpeningHours.Windows | backend/app/graph/tools/places_search.py:68 | one "open - close" window text per day period, in order |
| OpeningHours.SortedSetCorrect | backend/app/graph/tools/places_search.py:68 | `sorted(set(...))` gives a strictly increasing list holding exactly the window texts |
| OpeningHours.InsertSortedCorrect | backend/app/graph/tools/places_search.py:68 | inserting into a strictly sorted list keeps it sorted and adds exactly the new text |
| OpeningHours.StrictlySortedUnique | backend/app/graph/tools/places_search.py:68 | two strictly sorted lists with the same elements are equal, so the window list is determined by the set |
| OpeningHours.MorningWindow | backend/app/graph/tools/places_search.py:68 | a 9:00–12:00 period renders as "09:00 AM - 12:00 PM" |
| OpeningHours.AfternoonWindow | backend/app/graph/tools/places_search.py:68 | a 13:00–17:00 period renders as "01:00 PM - 05:00 PM" |
| OpeningHours.WindowsSortAsText | backend/app/graph/tools/places_search.py:68 | the listed windows are ordered as text, so with duplicates removed "01:00 PM - 05:00 PM" comes before "09:00 AM - 12:00 PM" |
| Text.LexLessTransitive | backend/app/graph/tools/places_search.py:68 | Python's string order is transitive |
| Text.LexLessTotal | backend/app/graph/tools/places_search.py:68 | distinct strings are ordered one way or the other |
| Text.LexLessIrreflexive | backend/app/graph/tools/places_search.py:68 | no string is below itself |
| Text.LexLessAsymmetric | backend/app/graph/tools/places_search.py:68 | the order is asymmetric |
| Text.NatToString | backend/app/graph/tools/places_search.py:390 | a count renders as at least one decimal digit, and as at least two from 10 up |
| Text.NatToStringRoundTrip | backend/app/graph/tools/places_search.py:390 | the digits read back as the count |
| Text.Split | backend/app/schemas/schema.py:257-260 | `str.split` yields at least one word |
| Text.JoinSplit | backend/app/schemas/schema.py:257-260 | joining the words of a split on the separator gives the string back |
| Text.SplitJoin | backend/app/schemas/schema.py:257-260 | splitting words that do not contain the separator, joined by it, gives the words back |
| Scoring.RatingScoreBelowThreshold | backend/app/graph/tools/places_search.py:77-80 | below the desired count the score lies in [0, 0.2 w], strictly below 0.2 w for w > 0, and is 0 iff the place has no ratings or w = 0 |
| Scoring.RatingScore | backend/app/graph/tools/places_search.py:71-87 | meeting the desired count exactly scores 0, and an excess of 1000 or more scores the full weight |
| Scoring.LogRatioBounds | backend/app/graph/tools/places_search.py:82-85 | the capped log ratio is in [0, 1], is 0 with no excess, and is 1 from an excess of 1000 on |
| Scoring.RatingScoreAtOrAboveThreshold | backend/app/graph/tools/places_search.py:82-87 | at or above the desired count the score lies in [0, w], is 0 exactly at the count, and is w once the excess reaches 1000 |
| Scoring.RatingScoreMonotoneAbove | backend/app/graph/tools/places_search.py:82-87 | above the desired count, more ratings never lower the score |
| Scoring.RatingScoreDropsAtThreshold | backend/app/graph/tools/places_search.py:71-87 | for a desired count of at least 2 and a positive weight, one rating short of the count scores more than meeting it exactly |
| Scoring.CountFree | backend/app/graph/tools/places_search.py:128-132 | the count of names starting with "free" is at most the number of names |
| Scoring.ThreeFreeParkingNames | backend/app/graph/tools/places_search.py:124-133 | three of the seven parking field names start with "free" |
| Scoring.CalculatePlaceScore | backend/app/graph/tools/places_search.py:89-162 | the loop with its skips equals the fold `PlaceScore` over the dumped fields |
| Scoring.FieldScore | backend/app/graph/tools/places_search.py:101-159 | the body for one field that is not skipped equals that field's contribution |
| Scoring.AmenityContribution | backend/app/graph/tools/places_search.py:117-159 | a wanted amenity adds its weight iff the place has it; an unwanted one adds nothing |
| Scoring.FreeParkingContribution | backend/app/graph/tools/places_search.py:123-135 | wanted free parking adds 1.0 + w for any place with parking options, and raises without them |
| Scoring.DietaryContribution | backend/app/graph/tools/places_search.py:105-116 | the dietary field adds its weight iff the vegan/vegetarian requests are accommodated; an empty list adds w |
| Scoring.NeutralFields | backend/app/graph/tools/places_search.py:95-101 | cuisines, party size, the stay, and a zero rating count add nothing |
| Scoring.ContributionBounds | backend/app/graph/tools/places_search.py:101-159 | each field adds between 0 and 2 |
| Scoring.ContributionErrIff | backend/app/graph/tools/places_search.py:123-127 | a field raises exactly when it is wanted free parking and the place has no parking options |
| Scoring.ScoreOfErrIff | backend/app/graph/tools/places_search.py:97-159 | the fold raises iff some field raises |
| Scoring.PlaceScoreErrIff | backend/app/graph/tools/places_search.py:89-162 | scoring raises iff free parking is wanted and the place has no parking options |
| Scoring.ScoreOfBounds | backend/app/graph/tools/places_search.py:93-162 | the score of n fields lies in [0, 2n] |
| Scoring.PlaceScoreBounds | backend/app/graph/tools/places_search.py:89-162 | a place scores between 0 and 32 |
| Scoring.ScoreOfErrSticks | backend/app/graph/tools/places_search.py:97-159 | once a prefix raises, the whole score is that error |
| Scoring.ProfileScore | backend/app/graph/tools/places_search.py:97-162 | sixteen fields that add 0 except 1.0 at the fifth and 1.8 at the eighth score 2.8 |
| Scoring.DefaultContribution | backend/app/graph/tools/places_search.py:97-159 | with the defaults, a place with parking options gets 1.0 from the empty dietary list, 1.8 from free parking, and 0 from every other field |
| Scoring.DefaultPreferencesScore | backend/app/graph/tools/places_search.py:89-162 | with the defaults, a place with parking options scores exactly 2.8 |
| Filtering.Restrictions | backend/app/graph/tools/places_search.py:195-201 | the restrictions are exactly the fields with weight 1.0 and a truthy value |
| Filtering.RestrictionsAppend | backend/app/graph/tools/places_search.py:195-201 | selecting restrictions distributes over concatenation, so they keep field order |
| Filtering.RestrictionsSingleton | backend/app/graph/tools/places_search.py:195-201 | one field is kept iff it is a restriction |
| Filtering.CheckRestriction | backend/app/graph/tools/places_search.py:205-261 | the body for one restriction equals its reason lines, or raises for free parking without parking options |
| Filtering.FieldReasonIff | backend/app/graph/tools/places_search.py:205-261 | a restriction raises iff it is free parking on a place without parking options; otherwise its reason is empty iff the place meets it |
| Filtering.SmallPartiesPass | backend/app/graph/tools/places_search.py:208-210 | a party under six never adds a reason |
| Filtering.PaidParkingPasses | backend/app/graph/tools/places_search.py:230-237 | a paid parking lot satisfies the free-parking restriction |
| Filtering.ReasonsErrSticks | backend/app/graph/tools/places_search.py:205-261 | once a restriction raises, the check of the rest is that error |
| Filtering.ReasonsErrIff | backend/app/graph/tools/places_search.py:205-261 | the reason loop raises iff some restriction raises |
| Filtering.ReasonsEmptyIff | backend/app/graph/tools/places_search.py:204-261 | the concatenated reasons are empty iff every restriction is met |
| Filtering.CheckPlaceAgainstRestrictions | backend/app/graph/tools/places_search.py:203-272 | the method equals the restriction check: the reasons, then the hours message, then (True, "") or (False, reason) |
| Filtering.RestrictionCheckValidIff | backend/app/graph/tools/places_search.py:263-272 | a place is valid iff its reason is empty, iff it meets every restriction and its stay fits the opening hours |
| Filtering.DefaultRestrictionFields | backend/app/graph/tools/places_search.py:195-201 | under the defaults, the party size of one is the only restriction |
| Filtering.DefaultPreferencesRestrictOnlyByHours | backend/app/graph/tools/places_search.py:195-272 | under the defaults, the restriction check is the opening-hours check of a 60-minute stay from the import time |
| Filtering.FilterPlaces | backend/app/graph/tools/places_search.py:164-291 | the method equals the filter result: the partition followed by the stable descending sort, or the first error |
| Filtering.PlacesPartition | backend/app/graph/tools/places_search.py:274-281 | accepted and rejected places together form a permutation of the input; every accepted place passes, and every rejected one carries its non-empty reason |
| Filtering.PlacesPartitionOkIff | backend/app/graph/tools/places_search.py:274-281 | the partition succeeds iff every place's check succeeds |
| Filtering.ScoreEachSpec | backend/app/graph/tools/places_search.py:284-285 | each valid place is paired with its score and its position |
| Filtering.ScoreEachErrSticks | backend/app/graph/tools/places_search.py:284-285 | a scoring error in a prefix is the error of the whole list |
| Filtering.RankedScores | backend/app/graph/tools/places_search.py:284-288 | the sorted list is ranked by descending score, ties in input order, and each entry carries its place's score |
| Filtering.FilterRanking | backend/app/graph/tools/places_search.py:274-291 | the returned places are a permutation of the accepted ones in non-increasing score order, and the rejected list is the partition's |
| Filtering.SearchToolFailedIff | backend/app/graph/tools/places_search.py:388-392 | the reply mentions "Failed" iff filtering raised, with empty lists as the artifact; otherwise the artifact is the filter result |
| Filtering.SearchToolResult | backend/app/graph/tools/places_search.py:388-392 | a success reply starts "Obtained " and carries the filter result; a failure reply starts "Failed to get places: " and carries two empty lists |
| Filtering.GetLocationBias | backend/app/graph/tools/places_search.py:321-333 | a circle around the user with the desired radius iff the direction is "any"; otherwise no bias |
| Filtering.GetMapsTextSearchParameters | backend/app/graph/tools/places_search.py:338-356 | a location bias iff coordinates are known, and then it is `get_location_bias` of the coordinates, direction and distance; price levels iff a level is specified; a minimum rating iff the star rating is positive; each with the state's value |
| Partitioning.PartitionSplits | backend/app/graph/tools/places_search.py:274-281 | the two output lists together hold exactly the input places |
| Partitioning.PartitionKeepsOrder | backend/app/graph/tools/places_search.py:274-281 | the accepted list is exactly the passing places and the rejected list exactly the failing ones, each in input order |
| Partitioning.PartitionVerdicts | backend/app/graph/tools/places_search.py:276-281 | accepted places had a True verdict; rejected ones carry their False verdict's reason |
| Partitioning.PartitionOkIff | backend/app/graph/tools/places_search.py:276-281 | the loop completes iff no check raises |
| Partitioning.PartitionErrSticks | backend/app/graph/tools/places_search.py:276-281 | the first raised error ends the loop |
| Partitioning.Firsts | backend/app/graph/tools/places_search.py:275-281 | the places of the rejected pairs, in order |
| Ranking.Insert | backend/app/graph/tools/places_search.py:284-288 | insertion adds exactly the one entry |
| Ranking.InsertRanked | backend/app/graph/tools/places_search.py:284-288 | inserting an entry later in input order into a ranked list keeps it ranked |
| Ranking.SortByScore | backend/app/graph/tools/places_search.py:284-288 | the sort is a permutation |
| Ranking.SortRanked | backend/app/graph/tools/places_search.py:284-288 | entries in input order sort into descending score with ties in input order, as stable `sorted(..., reverse=True)` does |
| Ranking.Items | backend/app/graph/tools/places_search.py:289 | dropping the scores keeps the places in order |
| Ranking.ItemsInsert | backend/app/graph/tools/places_search.py:284-289 | the places after an insertion are the old ones plus the new one |
| Ranking.ItemsSort | backend/app/graph/tools/places_search.py:284-289 | the sorted places are a permutation of the scored ones |
| Agent.WhatToDoNextForStateUpdater | backend/app/graph/food_finder_agent.py:164-175 | go to the datetime extractor iff a time was specified and not yet extracted; otherwise to the query formulator |
| Agent.WhatToDoNextForSupervisor | backend/app/graph/food_finder_agent.py:144-153 | defined iff there is a last message and it has `tool_calls`; the search tool runs iff there are calls, otherwise the run ends |
| Agent.StepFollowsEdges | backend/app/graph/food_finder_agent.py:140-187 | every step of the graph moves along one of its declared edges |
| Agent.Step | backend/app/graph/food_finder_agent.py:134-187 | one step of the graph from its current node; only the supervisor and the tool node can fail, and `End` stays put |
| Agent.DefaultAgentState | backend/app/graph/food_finder_agent.py:192-204 | every default of `DEFAULT_AGENT_STATE`, with the preferences built at import time |
| Agent.InitialState | backend/app/graph/food_finder_agent.py:206-211 | the user's message as the only message, the given coordinates, and every other key as in `DEFAULT_AGENT_STATE` |
| Agent.ExtractorMerge | backend/app/graph/food_finder_agent.py:48-52 | the extractor sets the visit time, keeps the stay length, marks the datetime as extracted, and changes nothing else |
| Agent.ExtractorUpdate | backend/app/graph/food_finder_agent.py:48-52 | returns only `user_preferences`, with the start replaced and the stay duration kept, and `datetime_extracted` = True |
| Agent.ExtractorThenFormulator | backend/app/graph/food_finder_agent.py:164-187 | over the next two steps after an extraction: the updater runs with the flag set, then the formulator |
| Agent.StepKeepsExtracted | backend/app/graph/food_finder_agent.py:164-187 | no step clears the extracted flag or moves to the extractor once the flag is set |
| Agent.RunKeepsExtracted | backend/app/graph/food_finder_agent.py:164-187 | every later state of such a run keeps the flag and is not at the extractor |
| Agent.ExtractorRunsOnce | backend/app/graph/food_finder_agent.py:164-187 | a run that starts at the extractor never returns to it |
| Agent.StateUpdaterNode | backend/app/graph/food_finder_agent.py:68-87 | the loop over the first six keys, then the validation of the rest, then the incoming `when_to_eat_specified`, equals `UpdaterUpdate` |
| Agent.ScalarKeysOfDump | backend/app/graph/food_finder_agent.py:70-78 | the first six keys write the four scalars as extracted and touch no message, place map or extraction flag |
| Agent.UpdaterMerge | backend/app/graph/food_finder_agent.py:54-87 | after the updater the state keeps its own `when_to_eat_specified`, extraction flag, messages, place maps and coordinates; its preferences are the output's fields with the import-time default stay; the four scalars are copied |
| Agent.FindApiQuery | backend/app/graph/food_finder_agent.py:97-102 | the backward scan returns the latest query |
| Agent.FormulatorUpdate | backend/app/graph/food_finder_agent.py:89-94 | returns one formulator-tagged message with the model's content, and no other key |
| Agent.LatestApiQueryIsLatest | backend/app/graph/food_finder_agent.py:99-102 | the query is the content of the last formulator message |
| Agent.LatestApiQueryNone | backend/app/graph/food_finder_agent.py:98-102 | the query is "" when the formulator has not spoken |
| Agent.ShownCount | backend/app/graph/food_finder_agent.py:32 | min(5, n) |
| Agent.RecommendationShape | backend/app/graph/food_finder_agent.py:36 | each recommendation starts with its number and ". ", and ends with " \|\|" |
| Agent.RecommendationLines | backend/app/graph/food_finder_agent.py:32-37 | min(5, n) lines, the i-th describing the i-th place under number i + 1 |
| Agent.ListingIsConcat | backend/app/graph/food_finder_agent.py:33-38 | the accumulated text is the concatenation of the numbered lines |
| Agent.RecommendationsAreTopLines | backend/app/graph/food_finder_agent.py:28-38 | the response text is the concatenation of the top lines, and "" without places |
| Agent.FormatResponseStrFromPlaces | backend/app/graph/food_finder_agent.py:28-38 | the loop equals `Recommendations` |
| Agent.KeyedBy | backend/app/graph/food_finder_agent.py:117-118 | the dict comprehension has a key for every place and no other keys |
| Agent.KeyedByLastWins | backend/app/graph/food_finder_agent.py:117-118 | for a repeated name the last place wins |
| Agent.SupervisorAfterSearch | backend/app/graph/food_finder_agent.py:108-120 | after a successful search, the reply plus "\n\n" plus the recommendations is appended, both place maps are set, and the run ends |
| Agent.SupervisorUpdate | backend/app/graph/food_finder_agent.py:96-124 | fails iff there is no message; otherwise one AI message that starts with the reply, both place maps iff the last message is a successful search, the reply's tool calls otherwise and none after a search |
| Agent.SupervisorWithoutSearch | backend/app/graph/food_finder_agent.py:121-124 | otherwise the reply is appended as is, and the search runs next iff it asks for tool calls |
| Agent.SearchAnswersEveryCall | backend/app/graph/tools/places_search.py:366-392 | the tool node answers every call of the last AI message, in order, with the filtered search result, and hands back to the supervisor |
| Agent.ToolReply | backend/app/graph/tools/places_search.py:366-392 | the places searched for the call's query with the parameters built from the state are filtered against the state's preferences; the tool message mentions "Failed" iff that filtering raised, and carries the filter result otherwise |
| Agent.ToolUpdate | backend/app/graph/food_finder_agent.py:131 | defined iff the last message has tool calls; then one `ToolReply` per call, in order, and no other key |
| Agent.StepAppendsMessages | backend/app/schemas/schema.py:335 | no step loses or rewrites a message |
| Agent.RunAppendsMessages | backend/app/schemas/schema.py:335 | every state of a run extends the starting messages |
| Agent.StepKeepsNoTimeRequested | backend/app/graph/food_finder_agent.py:85 | without a requested time, no step requests one or enters the extractor |
| Agent.RunKeepsNoTimeRequested | backend/app/graph/food_finder_agent.py:85 | so no state of such a run does |
| Agent.ExtractorNeverReached | backend/app/graph/food_finder_agent.py:206-211 | no run from `create_initial_state` visits the datetime extractor, and each keeps the user's message first |
| Agent.Run | backend/app/graph/food_finder_agent.py:189 | a run starts at its configuration |

## Left out

- The language model calls (`llm.invoke`, structured output, tool binding) and their prompts:
  their outputs are the `Replies` parameters.
- The first-human-message lookup in the updater and the extractor: it only feeds the model
  prompt.
- The HTTP request to the Places API, the API key and field mask, and `get_places_from_json`
  with pydantic parsing beyond alias generation and the display-name flattening: the search
  is a parameter of the tool, applied to the query and the built parameters.
- The LangGraph runtime: compilation, streaming, checkpointing and recursion limits. The
  model steps the graph itself. The `ToolNode` is modelled with one tool; its name dispatch
  and error formatting are not modelled.
- Clock and formatting helpers that read `datetime.now()` (`get_datetime_for_place_hours`,
  `get_formatted_datetime`, `extract_datetime`); the FastAPI app, routers and tests.
- Floating point: weights and scores are exact reals, `math.log` is a parameter with laws,
  and the rating's `repr` is a parameter.
- Datetime range limits (year 1..9999 overflow); times are whole minutes.
- Agent.StateUpdaterNode: the code writes the new stay length into the *shared*
  `user_preferences` object of the incoming state, and so of `DEFAULT_AGENT_STATE`, in place
  (line 75). The extractor does the same (line 51). Both are modelled on values, so that
  aliasing is not captured.
- Agent.WhatToDoNextForSupervisor: its `IndexError` text (`list index out of range`) is
  Python's; its `AttributeError` text stands for the missing `tool_calls` attribute and is not
  Python's exact message, which names the message's class.
- Filtering.FilterPlaces: the exception texts follow CPython's exactly for the missing parking
  record (`'NoneType' object has no attribute 'model_fields'`, `Scoring.NoneParkingError`) and for
  an out-of-range hour or minute (`hour must be in 0..23`, `minute must be in 0..59`). The
  `ToolNode`'s two error texts in `Agent.ToolUpdate` are the model's own.
- Schema.PreferenceWeight: each preference's value has the type of its field's default (a list
  of strings, an int or a bool), whereas the source accepts any value. Values of another type,
  such as `None` for a `wants_*` flag (which is not `== False`, so the scorer adds the weight
  whenever the place has the amenity) or a string of dietary requests (which makes
  `"vegan" in value` a substring test), are not modelled.
- Schema.Place: `user_rating_count` is a natural number. A negative count would give a
  negative rating score, so the zero lower bounds of `Scoring.RatingScoreBelowThreshold`,
  `Scoring.ScoreOfBounds` and `Scoring.PlaceScoreBounds` rest on the count being non-negative.
- Text.Lower: `lower()`, `upper()` and `capitalize()` change ASCII letters only; other Unicode
  case mappings are not modelled.
