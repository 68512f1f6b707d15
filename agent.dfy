/** The food finder's workflow graph as an explicit state machine: the nodes, the two
    conditional routers, the fixed edges, and what each node merges into the agent state.
    The language model's replies and the text search's results are parameters of a step;
    only the deterministic code around them is modelled. */
module Agent {
  import opened Wrappers
  import opened Text
  import opened Schema
  import opened Scoring
  import opened Filtering

  // ---------------------------------------------------------------- nodes and edges

  datatype Node =
    | StateUpdater
    | DatetimeExtractor
    | MapsQueryFormulator
    | TeamSupervisor
    | SearchTool
    | End

  /** The graph's entry point. */
  const EntryPoint: Node := StateUpdater

  /** Every edge of the compiled graph: the two fixed-target edges into the supervisor, the
      edge back from the extractor to the updater, and the targets of the two routers. */
  const Edges: set<(Node, Node)> := {
    (MapsQueryFormulator, TeamSupervisor),
    (SearchTool, TeamSupervisor),
    (DatetimeExtractor, StateUpdater),
    (StateUpdater, DatetimeExtractor),
    (StateUpdater, MapsQueryFormulator),
    (TeamSupervisor, SearchTool),
    (TeamSupervisor, End)}

  /** The name the query formulator writes into its messages. */
  const FormulatorNodeName: string := "maps_query_formulator_node"

  // ---------------------------------------------------------------- routers

  /** `what_to_do_next_for_state_updater`: the extractor runs when a time to eat was asked
      for and has not been extracted yet; otherwise the query formulator runs. */
  function WhatToDoNextForStateUpdater(s: AgentState): (n: Node)
    ensures n == DatetimeExtractor <==> s.whenToEatSpecified && !s.datetimeExtracted
    ensures n == DatetimeExtractor || n == MapsQueryFormulator
  {
    if s.whenToEatSpecified then
      if !s.datetimeExtracted then DatetimeExtractor else MapsQueryFormulator
    else
      MapsQueryFormulator
  }

  /** `message.tool_calls` for the messages that have that attribute: AI messages, and
      custom AI messages, which are built without tool calls. */
  function ToolCallsOf(m: Message): Option<seq<ToolCall>> {
    match m
    case AIMessage(_, calls) => Some(calls)
    case CustomAIMessage(_, _) => Some([])
    case _ => None
  }

  function Last(ms: seq<Message>): Message
    requires |ms| > 0
  {
    ms[|ms| - 1]
  }

  /** `what_to_do_next_for_supervisor`: the search tool runs when the last message asks
      for tool calls, otherwise the run ends. Reading `messages[-1]` of an empty list, or
      `tool_calls` of a message without that attribute, raises. */
  function WhatToDoNextForSupervisor(s: AgentState): (r: Result<Node>)
    ensures r.Ok? <==> |s.messages| > 0 && ToolCallsOf(Last(s.messages)).Some?
    ensures r.Ok? ==> (r.value == SearchTool <==> |ToolCallsOf(Last(s.messages)).value| > 0)
    ensures r.Ok? ==> r.value == SearchTool || r.value == End
  {
    if |s.messages| == 0 then Err("list index out of range")
    else
      match ToolCallsOf(Last(s.messages))
      case None => Err("the last message has no attribute 'tool_calls'")
      case Some(calls) => if |calls| == 0 then Ok(End) else Ok(SearchTool)
  }

  // ---------------------------------------------------------------- initial state

  /** `DEFAULT_AGENT_STATE` (it has no messages yet); `importTime` is the moment the
      `UserPreferences` defaults were evaluated. */
  function DefaultAgentState(importTime: DateTime): (s: AgentState)
    ensures s.messages == [] && !s.whenToEatSpecified && !s.datetimeExtracted
    ensures s.preferredPriceLevel == "PRICE_LEVEL_UNSPECIFIED" && s.desiredStarRating == 0.0
    ensures s.userCoordinates.None? && s.preferredDirection == "any"
    ensures s.desiredMaxDistanceMeters == 16093.0
    ensures s.userPreferences == DefaultUserPreferences(importTime)
    ensures s.validPlaces == map[] && s.invalidPlaces == map[] && !s.foundPlace
  {
    AgentState([], false, false, "PRICE_LEVEL_UNSPECIFIED", 0.0, None, "any", 16093.0,
               DefaultUserPreferences(importTime), map[], map[], false)
  }

  /** `create_initial_state`: the defaults, the user's first message and their
      coordinates. */
  function InitialState(userInput: string, coordinates: Option<(real, real)>, importTime: DateTime): (s: AgentState)
    ensures s.messages == [HumanMessage(userInput)] && s.userCoordinates == coordinates
    ensures s.(messages := [], userCoordinates := None) == DefaultAgentState(importTime)
  {
    DefaultAgentState(importTime).(messages := [HumanMessage(userInput)], userCoordinates := coordinates)
  }

  // ---------------------------------------------------------------- datetime extractor

  /** What `datetime_extractor_node` returns once the model has extracted `dt`. */
  function ExtractorUpdate(s: AgentState, dt: DateTime): (u: StateUpdate)
    ensures u.datetimeExtracted == Some(true)
    ensures u.userPreferences.Some? && u.userPreferences.value.desiredTimeAndStayDuration
      == (dt, s.userPreferences.desiredTimeAndStayDuration.1)
    ensures u.userPreferences.value.(desiredTimeAndStayDuration := s.userPreferences.desiredTimeAndStayDuration)
      == s.userPreferences
    ensures u.(userPreferences := None, datetimeExtracted := None) == NoUpdate
  {
    var prefs := s.userPreferences;
    var duration := prefs.desiredTimeAndStayDuration.1;
    NoUpdate.(userPreferences := Some(prefs.(desiredTimeAndStayDuration := (dt, duration))),
              datetimeExtracted := Some(true))
  }

  /** The extractor marks the time as extracted and replaces the visit's start only: the
      stay duration and everything else in the state are kept. */
  lemma ExtractorMerge(s: AgentState, dt: DateTime)
    ensures var t := Apply(s, ExtractorUpdate(s, dt));
      && t.datetimeExtracted
      && t.userPreferences.desiredTimeAndStayDuration == (dt, s.userPreferences.desiredTimeAndStayDuration.1)
      && t.(datetimeExtracted := s.datetimeExtracted,
            userPreferences := t.userPreferences.(desiredTimeAndStayDuration := s.userPreferences.desiredTimeAndStayDuration))
         == s
  {
  }

  // ---------------------------------------------------------------- state updater

  /** The returned dict after the keys of `entries` (the first six of the model's output)
      have been written, one after another. */
  function ScalarKeys(entries: seq<OutputEntry>, s: AgentState): StateUpdate {
    if |entries| == 0 then NoUpdate
    else WriteKey(ScalarKeys(entries[..|entries| - 1], s), entries[|entries| - 1], s)
  }

  /** One iteration of the loop: the stay length goes into the incoming preferences, any
      other key is copied as it is. */
  function WriteKey(u: StateUpdate, e: OutputEntry, s: AgentState): StateUpdate {
    match e
    case WhenToEatSpecified(b) => u.(whenToEatSpecified := Some(b))
    case LengthOfStay(v) =>
      u.(userPreferences := Some(s.userPreferences.(
        desiredTimeAndStayDuration := (s.userPreferences.desiredTimeAndStayDuration.0, v))))
    case PreferredPriceLevel(level) => u.(preferredPriceLevel := Some(level))
    case DesiredStarRating(stars) => u.(desiredStarRating := Some(stars as real))
    case PreferredDirection(direction) => u.(preferredDirection := Some(direction))
    case DesiredMaxDistanceMeters(meters) => u.(desiredMaxDistanceMeters := Some(meters))
    case Preference(_) => u
  }

  /** What `state_updater_node` returns for the model's output `o`: the first six keys,
      then the preferences validated from the rest, then the incoming
      `when_to_eat_specified`. */
  function UpdaterUpdate(s: AgentState, o: StateUpdaterOutput, importTime: DateTime): StateUpdate {
    var dump := Dump(o);
    ScalarKeys(dump[..6], s).(
      userPreferences := Some(PreferencesFromEntries(dump[6..], DefaultUserPreferences(importTime))),
      whenToEatSpecified := Some(s.whenToEatSpecified))
  }

  /** `state_updater_node` after the model call: the loop over the first six keys, with
      the stay length written into the incoming preferences. */
  method StateUpdaterNode(s: AgentState, o: StateUpdaterOutput, importTime: DateTime)
      returns (update: StateUpdate)
    ensures update == UpdaterUpdate(s, o, importTime)
  {
    var newPreferences := Dump(o);
    var prefRestrictions := newPreferences[..6];
    update := NoUpdate;
    for k := 0 to 6
      invariant update == ScalarKeys(prefRestrictions[..k], s)
    {
      assert prefRestrictions[..k + 1][..k] == prefRestrictions[..k];
      match prefRestrictions[k]
      case LengthOfStay(v) =>
        var newUserPref := s.userPreferences;
        var origTimeOfStay := s.userPreferences.desiredTimeAndStayDuration.0;
        newUserPref := newUserPref.(desiredTimeAndStayDuration := (origTimeOfStay, v));
        update := update.(userPreferences := Some(newUserPref));
      case WhenToEatSpecified(b) => update := update.(whenToEatSpecified := Some(b));
      case PreferredPriceLevel(level) => update := update.(preferredPriceLevel := Some(level));
      case DesiredStarRating(stars) => update := update.(desiredStarRating := Some(stars as real));
      case PreferredDirection(direction) => update := update.(preferredDirection := Some(direction));
      case DesiredMaxDistanceMeters(meters) => update := update.(desiredMaxDistanceMeters := Some(meters));
      case Preference(_) =>
    }
    assert prefRestrictions[..6] == prefRestrictions;
    var prefRest := newPreferences[6..];
    update := update.(userPreferences := Some(PreferencesFromEntries(prefRest, DefaultUserPreferences(importTime))));
    update := update.(whenToEatSpecified := Some(s.whenToEatSpecified));
  }

  /** The first six keys write the five scalars and the stay length as extracted. */
  lemma ScalarKeysOfDump(s: AgentState, o: StateUpdaterOutput)
    ensures var u := ScalarKeys(Dump(o)[..6], s);
      && u.messages == [] && u.datetimeExtracted.None?
      && u.validPlaces.None? && u.invalidPlaces.None?
      && u.preferredPriceLevel == Some(o.preferredPriceLevel)
      && u.desiredStarRating == Some(o.desiredStarRating as real)
      && u.preferredDirection == Some(o.preferredDirection)
      && u.desiredMaxDistanceMeters == Some(o.desiredMaxDistanceMeters)
  {
    DumpScalarEntries(o);
    ScalarKeysOfSix(s, o.whenToEatSpecified, o.lengthOfStay, o.preferredPriceLevel,
                    o.desiredStarRating, o.preferredDirection, o.desiredMaxDistanceMeters);
  }

  /** The first six entries of the dump are the six scalar keys in declaration order. */
  lemma DumpScalarEntries(o: StateUpdaterOutput)
    ensures Dump(o)[..6]
         == [WhenToEatSpecified(o.whenToEatSpecified), LengthOfStay(o.lengthOfStay),
             PreferredPriceLevel(o.preferredPriceLevel), DesiredStarRating(o.desiredStarRating),
             PreferredDirection(o.preferredDirection), DesiredMaxDistanceMeters(o.desiredMaxDistanceMeters)]
  {
  }

  /** The loop over six given scalar keys, one write at a time. */
  lemma ScalarKeysOfSix(s: AgentState, whenToEat: bool, stay: int, level: string, stars: int,
                        direction: string, meters: real)
    ensures var u := ScalarKeys([WhenToEatSpecified(whenToEat), LengthOfStay(stay),
                                 PreferredPriceLevel(level), DesiredStarRating(stars),
                                 PreferredDirection(direction), DesiredMaxDistanceMeters(meters)], s);
      && u.messages == [] && u.datetimeExtracted.None?
      && u.validPlaces.None? && u.invalidPlaces.None?
      && u.preferredPriceLevel == Some(level)
      && u.desiredStarRating == Some(stars as real)
      && u.preferredDirection == Some(direction)
      && u.desiredMaxDistanceMeters == Some(meters)
  {
    var es := [WhenToEatSpecified(whenToEat), LengthOfStay(stay),
               PreferredPriceLevel(level), DesiredStarRating(stars),
               PreferredDirection(direction), DesiredMaxDistanceMeters(meters)];
    var prefs := s.userPreferences;
    var u1 := NoUpdate.(whenToEatSpecified := Some(whenToEat));
    KeyStep(es, 0, s, NoUpdate, u1);
    var u2 := u1.(userPreferences := Some(prefs.(
      desiredTimeAndStayDuration := (prefs.desiredTimeAndStayDuration.0, stay))));
    KeyStep(es, 1, s, u1, u2);
    var u3 := u2.(preferredPriceLevel := Some(level));
    KeyStep(es, 2, s, u2, u3);
    var u4 := u3.(desiredStarRating := Some(stars as real));
    KeyStep(es, 3, s, u3, u4);
    var u5 := u4.(preferredDirection := Some(direction));
    KeyStep(es, 4, s, u4, u5);
    var u6 := u5.(desiredMaxDistanceMeters := Some(meters));
    KeyStep(es, 5, s, u5, u6);
    assert es[..6] == es;
  }

  /** One iteration of the loop, with its effect given. */
  lemma KeyStep(es: seq<OutputEntry>, k: nat, s: AgentState, u: StateUpdate, next: StateUpdate)
    requires k < |es| && ScalarKeys(es[..k], s) == u && WriteKey(u, es[k], s) == next
    ensures ScalarKeys(es[..k + 1], s) == next
  {
    assert es[..k + 1][..k] == es[..k];
  }

  /** After the updater the state keeps the incoming `when_to_eat_specified` whatever the
      model extracted; its preferences are the model's preference fields with the
      default time and stay duration (so `length_of_stay` is lost); the other five
      scalars are copied as extracted; messages, places and the extraction flag stay. */
  lemma UpdaterMerge(s: AgentState, o: StateUpdaterOutput, importTime: DateTime)
    ensures var t := Apply(s, UpdaterUpdate(s, o, importTime));
      && t.whenToEatSpecified == s.whenToEatSpecified
      && t.datetimeExtracted == s.datetimeExtracted
      && t.userPreferences == OutputPreferences(o, (importTime, 60))
      && t.userPreferences.desiredTimeAndStayDuration == (importTime, 60)
      && t.preferredPriceLevel == o.preferredPriceLevel
      && t.desiredStarRating == o.desiredStarRating as real
      && t.preferredDirection == o.preferredDirection
      && t.desiredMaxDistanceMeters == o.desiredMaxDistanceMeters
      && t.messages == s.messages && t.validPlaces == s.validPlaces
      && t.invalidPlaces == s.invalidPlaces && t.userCoordinates == s.userCoordinates
  {
    ScalarKeysOfDump(s, o);
    PreferencesFromDump(o, DefaultUserPreferences(importTime));
  }

  // ---------------------------------------------------------------- query formulator

  /** `maps_query_formulator_node`: the model's reply, tagged with the node's name. */
  function FormulatorUpdate(content: string): (u: StateUpdate)
    ensures |u.messages| == 1 && u.messages[0].content == content && IsFormulatorMessage(u.messages[0])
    ensures u.(messages := []) == NoUpdate
  {
    NoUpdate.(messages := [CustomAIMessage(content, FormulatorNodeName)])
  }

  // ---------------------------------------------------------------- supervisor

  predicate IsFormulatorMessage(m: Message) {
    m.CustomAIMessage? && m.originatingNode == FormulatorNodeName
  }

  /** The API query the supervisor is prompted with: the content of the latest message from
      the query formulator, or "" if there is none. */
  function LatestApiQuery(ms: seq<Message>): string {
    if |ms| == 0 then ""
    else if IsFormulatorMessage(ms[|ms| - 1]) then ms[|ms| - 1].content
    else LatestApiQuery(ms[..|ms| - 1])
  }

  /** The query is that of the formulator message with no other one after it, and "" when
      the formulator has not spoken. */
  lemma {:induction false} LatestApiQueryIsLatest(ms: seq<Message>, k: nat)
    requires k < |ms| && IsFormulatorMessage(ms[k])
    requires forall j :: k < j < |ms| ==> !IsFormulatorMessage(ms[j])
    ensures LatestApiQuery(ms) == ms[k].content
  {
    if k < |ms| - 1 {
      LatestApiQueryIsLatest(ms[..|ms| - 1], k);
    }
  }

  lemma {:induction false} LatestApiQueryNone(ms: seq<Message>)
    requires forall j :: 0 <= j < |ms| ==> !IsFormulatorMessage(ms[j])
    ensures LatestApiQuery(ms) == ""
  {
    if |ms| > 0 {
      LatestApiQueryNone(ms[..|ms| - 1]);
    }
  }

  /** The reverse scan of `team_supervisor_node`, stopping at the first hit. */
  method FindApiQuery(messages: seq<Message>) returns (apiQuery: string)
    ensures apiQuery == LatestApiQuery(messages)
  {
    apiQuery := "";
    var i := |messages|;
    assert messages[..i] == messages;
    while i > 0
      invariant 0 <= i <= |messages|
      invariant LatestApiQuery(messages) == LatestApiQuery(messages[..i])
    {
      var message := messages[i - 1];
      assert messages[..i][i - 1] == message;
      if message.CustomAIMessage? && message.originatingNode == FormulatorNodeName {
        apiQuery := message.content;
        break;
      }
      assert messages[..i][..i - 1] == messages[..i - 1];
      i := i - 1;
    }
  }

  /** How many recommendations the supervisor shows. */
  const MaxRecommendations: nat := 5

  /** `str(place.national_phone_number)`. */
  function PhoneText(p: Place): string {
    match p.nationalPhoneNumber
    case None => "None"
    case Some(number) => number
  }

  /** One recommendation line; `floatRepr` is Python's `repr` of a float. */
  function Recommendation(rank: nat, p: Place, floatRepr: real -> string): string {
    NatToString(rank) + ". " + Description(p, floatRepr)
  }

  /** The line's text after the rank. */
  function Description(p: Place, floatRepr: real -> string): string {
    p.displayNameText + " - " + p.primaryTypeDisplayNameText
    + ". Located at " + p.formattedAddress + ". Phone number is " + PhoneText(p)
    + ". Rating is " + floatRepr(p.rating) + " with " + NatToString(p.userRatingCount)
    + " ratings. ||"
  }

  /** Every recommendation starts with its rank and ends with " ||". */
  lemma RecommendationShape(rank: nat, p: Place, floatRepr: real -> string)
    ensures StartsWith(Recommendation(rank, p, floatRepr), NatToString(rank) + ". ")
    ensures var r := Recommendation(rank, p, floatRepr);
      |r| >= 3 && r[|r| - 3..] == " ||"
  {
    var head := NatToString(rank) + ". ";
    var body := Description(p, floatRepr);
    var r := head + body;
    assert r[..|head|] == head;
    SuffixOfAppend(head, body, " ||");
    SuffixOfAppend(p.displayNameText + " - " + p.primaryTypeDisplayNameText
      + ". Located at " + p.formattedAddress + ". Phone number is " + PhoneText(p)
      + ". Rating is " + floatRepr(p.rating) + " with " + NatToString(p.userRatingCount),
      " ratings. ||", " ||");
  }

  lemma SuffixOfAppend(a: string, b: string, suffix: string)
    requires |suffix| <= |b| && b[|b| - |suffix|..] == suffix
    ensures var ab := a + b; |suffix| <= |ab| && ab[|ab| - |suffix|..] == suffix
  {
    var ab := a + b;
    assert ab[|ab| - |suffix|..] == b[|b| - |suffix|..];
  }

  /** The recommendations of `ps`, numbered from 1, one after another. */
  function Listing(ps: seq<Place>, floatRepr: real -> string): string {
    if |ps| == 0 then ""
    else Listing(ps[..|ps| - 1], floatRepr) + Recommendation(|ps|, ps[|ps| - 1], floatRepr)
  }

  function ShownCount(n: nat): (m: nat)
    ensures m <= n && m <= MaxRecommendations && (m == n || m == MaxRecommendations)
  {
    if n < MaxRecommendations then n else MaxRecommendations
  }

  /** The text `format_response_str_from_places` builds from the ranked places. */
  function Recommendations(validPlaces: seq<Place>, floatRepr: real -> string): string {
    Listing(validPlaces[..ShownCount(|validPlaces|)], floatRepr)
  }

  /** The lines of the first `min(5, n)` places, numbered from 1 in input order. */
  function RecommendationLines(validPlaces: seq<Place>, floatRepr: real -> string): (lines: seq<string>)
    ensures |lines| == ShownCount(|validPlaces|)
    ensures forall i :: 0 <= i < |lines| ==> lines[i] == Recommendation(i + 1, validPlaces[i], floatRepr)
  {
    seq(ShownCount(|validPlaces|), i requires 0 <= i < ShownCount(|validPlaces|) =>
      Recommendation(i + 1, validPlaces[i], floatRepr))
  }

  lemma {:induction false} ListingIsConcat(ps: seq<Place>, floatRepr: real -> string)
    ensures Listing(ps, floatRepr) == Concat(seq(|ps|, i requires 0 <= i < |ps| => Recommendation(i + 1, ps[i], floatRepr)))
  {
    var lines := seq(|ps|, i requires 0 <= i < |ps| => Recommendation(i + 1, ps[i], floatRepr));
    if |ps| > 0 {
      var init := ps[..|ps| - 1];
      var initLines := seq(|init|, i requires 0 <= i < |init| => Recommendation(i + 1, init[i], floatRepr));
      ListingIsConcat(init, floatRepr);
      LinesSnoc(ps, floatRepr);
      ConcatSnoc(initLines, Recommendation(|ps|, ps[|ps| - 1], floatRepr));
    }
  }

  /** The numbered lines of a list are those of all but its last place, then the last one's. */
  lemma LinesSnoc(ps: seq<Place>, floatRepr: real -> string)
    requires |ps| > 0
    ensures var init := ps[..|ps| - 1];
      seq(|ps|, i requires 0 <= i < |ps| => Recommendation(i + 1, ps[i], floatRepr))
      == seq(|init|, i requires 0 <= i < |init| => Recommendation(i + 1, init[i], floatRepr))
         + [Recommendation(|ps|, ps[|ps| - 1], floatRepr)]
  {
  }

  /** The response text is the concatenation of exactly `min(5, n)` lines, the i-th
      describing the i-th ranked place under number i + 1; no places give "". */
  lemma RecommendationsAreTopLines(validPlaces: seq<Place>, floatRepr: real -> string)
    ensures Recommendations(validPlaces, floatRepr) == Concat(RecommendationLines(validPlaces, floatRepr))
    ensures |validPlaces| == 0 ==> Recommendations(validPlaces, floatRepr) == ""
  {
    var shown := validPlaces[..ShownCount(|validPlaces|)];
    ListingIsConcat(shown, floatRepr);
    assert seq(|shown|, i requires 0 <= i < |shown| => Recommendation(i + 1, shown[i], floatRepr))
        == RecommendationLines(validPlaces, floatRepr);
  }

  /** `format_response_str_from_places`: the loop over the first `min(5, n)` places. */
  method FormatResponseStrFromPlaces(validPlaces: seq<Place>, floatRepr: real -> string)
      returns (responseStr: string)
    ensures responseStr == Recommendations(validPlaces, floatRepr)
  {
    var numRecsToShow := if 5 < |validPlaces| then 5 else |validPlaces|;
    var shown := validPlaces[..numRecsToShow];
    responseStr := "";
    var currRec := 1;
    for k := 0 to |shown|
      invariant currRec == k + 1
      invariant responseStr == Listing(shown[..k], floatRepr)
    {
      var place := shown[k];
      assert shown[..k + 1][..k] == shown[..k];
      responseStr := responseStr + Recommendation(currRec, place, floatRepr);
      currRec := currRec + 1;
    }
    assert shown[..|shown|] == shown;
  }

  /** A dict comprehension keyed by `key`: a later entry with the same key wins. */
  function KeyedBy<T>(xs: seq<T>, key: T -> string): (m: map<string, T>)
    ensures forall i :: 0 <= i < |xs| ==> key(xs[i]) in m
    ensures forall name :: name in m ==> exists i :: 0 <= i < |xs| && key(xs[i]) == name
  {
    if |xs| == 0 then map[]
    else
      var init := KeyedBy(xs[..|xs| - 1], key);
      assert forall i :: 0 <= i < |xs| - 1 ==> xs[..|xs| - 1][i] == xs[i];
      init[key(xs[|xs| - 1]) := xs[|xs| - 1]]
  }

  /** Under each key the comprehension holds the last entry with that key. */
  lemma {:induction false} KeyedByLastWins<T>(xs: seq<T>, key: T -> string, k: nat)
    requires k < |xs| && forall j :: k < j < |xs| ==> key(xs[j]) != key(xs[k])
    ensures key(xs[k]) in KeyedBy(xs, key) && KeyedBy(xs, key)[key(xs[k])] == xs[k]
  {
    if k < |xs| - 1 {
      var init := xs[..|xs| - 1];
      assert init[k] == xs[k];
      KeyedByLastWins(init, key, k);
    }
  }

  function DisplayName(p: Place): string {
    p.displayNameText
  }

  function RejectedName(r: Rejected): string {
    r.0.displayNameText
  }

  /** True when the last message is the search tool's successful report. */
  predicate SearchSucceeded(ms: seq<Message>) {
    |ms| > 0 && Last(ms).ToolMessage? && !Contains(Last(ms).content, "Failed")
  }

  /** What `team_supervisor_node` returns, given the model's reply (its content and its
      tool calls). After a successful search the reply's text is followed by the
      recommendations, the tool calls are dropped and both place maps are replaced. */
  function SupervisorUpdate(s: AgentState, reply: (string, seq<ToolCall>), floatRepr: real -> string)
      : (r: Result<StateUpdate>)
    ensures r.Err? <==> |s.messages| == 0
    ensures r.Ok? ==>
      |r.value.messages| == 1 && r.value.messages[0].AIMessage? && StartsWith(r.value.messages[0].content, reply.0)
    ensures r.Ok? ==> (r.value.validPlaces.Some? <==> SearchSucceeded(s.messages))
    ensures r.Ok? ==> (r.value.invalidPlaces.Some? <==> SearchSucceeded(s.messages))
    ensures r.Ok? && !SearchSucceeded(s.messages) ==> r.value.messages[0].toolCalls == reply.1
    ensures r.Ok? && SearchSucceeded(s.messages) ==> r.value.messages[0].toolCalls == []
  {
    if |s.messages| == 0 then Err("list index out of range")
    else if SearchSucceeded(s.messages) then
      var (validPlaces, invalidPlaces) := Last(s.messages).artifact;
      var content := reply.0 + "\n\n" + Recommendations(validPlaces, floatRepr);
      Ok(NoUpdate.(messages := [AIMessage(content, [])],
                   validPlaces := Some(KeyedBy(validPlaces, DisplayName)),
                   invalidPlaces := Some(KeyedBy(invalidPlaces, RejectedName))))
    else
      Ok(NoUpdate.(messages := [AIMessage(reply.0, reply.1)]))
  }

  // ---------------------------------------------------------------- search tool

  /** The places the text search returns for one call: the call's query together with the
      optional parameters built from the state, as the tool sends them. */
  function SearchedPlaces(call: ToolCall, s: AgentState, search: (string, SearchParameters) -> seq<Place>)
      : seq<Place>
  {
    search(call.apiQuery, GetMapsTextSearchParameters(s))
  }

  /** The tool's message for one call: the searched places filtered against the state's
      preferences. */
  function ToolReply(call: ToolCall, s: AgentState, search: (string, SearchParameters) -> seq<Place>, ln: real -> real)
      : (m: Message)
    requires LnLaws(ln)
    ensures m.ToolMessage?
    ensures Contains(m.content, "Failed") <==> FilterResult(SearchedPlaces(call, s, search), s.userPreferences, ln).Err?
    ensures FilterResult(SearchedPlaces(call, s, search), s.userPreferences, ln).Ok? ==>
      m.artifact == FilterResult(SearchedPlaces(call, s, search), s.userPreferences, ln).value
  {
    var result := FilterResult(SearchedPlaces(call, s, search), s.userPreferences, ln);
    SearchToolFailedIff(result);
    var (content, artifact) := SearchToolResult(result);
    ToolMessage(content, artifact)
  }

  /** The tool node: one tool message per call of the last AI message, filtered against the
      state's preferences. */
  function ToolUpdate(s: AgentState, search: (string, SearchParameters) -> seq<Place>, ln: real -> real): (r: Result<StateUpdate>)
    requires LnLaws(ln)
    ensures r.Ok? <==> |s.messages| > 0 && ToolCallsOf(Last(s.messages)).Some?
    ensures r.Ok? ==> var calls := ToolCallsOf(Last(s.messages)).value;
      && |r.value.messages| == |calls|
      && (forall i :: 0 <= i < |calls| ==> r.value.messages[i] == ToolReply(calls[i], s, search, ln))
      && r.value.(messages := []) == NoUpdate
  {
    if |s.messages| == 0 then Err("no message found in input")
    else
      match ToolCallsOf(Last(s.messages))
      case None => Err("last message is not an AI message")
      case Some(calls) =>
        Ok(NoUpdate.(messages := seq(|calls|, i requires 0 <= i < |calls| && LnLaws(ln) =>
          ToolReply(calls[i], s, search, ln))))
  }

  // ---------------------------------------------------------------- steps and runs

  /** What the language model and the text search answer during one step. */
  datatype Replies = Replies(
    updater: StateUpdaterOutput,
    extracted: DateTime,
    formulated: string,
    supervisor: (string, seq<ToolCall>),
    search: (string, SearchParameters) -> seq<Place>)

  datatype Config = Config(node: Node, state: AgentState)

  /** One step of the graph: run the current node, merge its update into the state and
      follow the node's edge or router. */
  function Step(c: Config, r: Replies, importTime: DateTime, floatRepr: real -> string, ln: real -> real)
      : (next: Result<Config>)
    requires LnLaws(ln)
    ensures c.node != TeamSupervisor && c.node != SearchTool ==> next.Ok?
    ensures c.node == End ==> next == Ok(c)
  {
    var s := c.state;
    match c.node
    case StateUpdater =>
      var t := Apply(s, UpdaterUpdate(s, r.updater, importTime));
      Ok(Config(WhatToDoNextForStateUpdater(t), t))
    case DatetimeExtractor =>
      Ok(Config(StateUpdater, Apply(s, ExtractorUpdate(s, r.extracted))))
    case MapsQueryFormulator =>
      Ok(Config(TeamSupervisor, Apply(s, FormulatorUpdate(r.formulated))))
    case TeamSupervisor =>
      var u :- SupervisorUpdate(s, r.supervisor, floatRepr);
      var t := Apply(s, u);
      var next :- WhatToDoNextForSupervisor(t);
      Ok(Config(next, t))
    case SearchTool =>
      var u :- ToolUpdate(s, r.search, ln);
      Ok(Config(TeamSupervisor, Apply(s, u)))
    case End => Ok(c)
  }

  /** The configurations a run visits, one step per reply, until the end node, an error,
      or the replies run out. */
  function Run(c: Config, rs: seq<Replies>, importTime: DateTime, floatRepr: real -> string, ln: real -> real)
      : (trace: seq<Config>)
    requires LnLaws(ln)
    ensures |trace| >= 1 && trace[0] == c
    decreases |rs|
  {
    if c.node == End || |rs| == 0 then [c]
    else
      match Step(c, rs[0], importTime, floatRepr, ln)
      case Err(_) => [c]
      case Ok(next) => [c] + Run(next, rs[1..], importTime, floatRepr, ln)
  }

  /** Every step moves along an edge of the graph. */
  lemma StepFollowsEdges(c: Config, r: Replies, importTime: DateTime, floatRepr: real -> string, ln: real -> real)
    requires LnLaws(ln) && c.node != End
    requires Step(c, r, importTime, floatRepr, ln).Ok?
    ensures (c.node, Step(c, r, importTime, floatRepr, ln).value.node) in Edges
  {
  }

  /** Messages are only ever appended. */
  lemma StepAppendsMessages(c: Config, r: Replies, importTime: DateTime, floatRepr: real -> string, ln: real -> real)
    requires LnLaws(ln)
    requires Step(c, r, importTime, floatRepr, ln).Ok?
    ensures c.state.messages <= Step(c, r, importTime, floatRepr, ln).value.state.messages
  {
    var s := c.state;
    match c.node {
      case TeamSupervisor =>
        var u := SupervisorUpdate(s, r.supervisor, floatRepr).value;
        assert Step(c, r, importTime, floatRepr, ln).value.state == Apply(s, u);
      case SearchTool =>
        var u := ToolUpdate(s, r.search, ln).value;
        assert Step(c, r, importTime, floatRepr, ln).value.state == Apply(s, u);
      case _ =>
    }
  }

  lemma PrefixTransitive(a: seq<Message>, b: seq<Message>, c: seq<Message>)
    requires a <= b && b <= c
    ensures a <= c
  {
    assert c[..|b|][..|a|] == c[..|a|];
  }

  /** Every configuration of a run holds the messages of the one it started from, and
      more. */
  lemma {:induction false} RunAppendsMessages(c: Config, rs: seq<Replies>, importTime: DateTime,
                                             floatRepr: real -> string, ln: real -> real)
    requires LnLaws(ln)
    ensures forall j :: 0 <= j < |Run(c, rs, importTime, floatRepr, ln)| ==>
      c.state.messages <= Run(c, rs, importTime, floatRepr, ln)[j].state.messages
    decreases |rs|
  {
    var trace := Run(c, rs, importTime, floatRepr, ln);
    if c.node != End && |rs| > 0 && Step(c, rs[0], importTime, floatRepr, ln).Ok? {
      var next := Step(c, rs[0], importTime, floatRepr, ln).value;
      var rest := Run(next, rs[1..], importTime, floatRepr, ln);
      assert trace == [c] + rest;
      RunAppendsMessages(next, rs[1..], importTime, floatRepr, ln);
      StepAppendsMessages(c, rs[0], importTime, floatRepr, ln);
      forall j | 0 < j < |trace| ensures c.state.messages <= trace[j].state.messages {
        assert trace[j] == rest[j - 1];
        PrefixTransitive(c.state.messages, next.state.messages, rest[j - 1].state.messages);
      }
    }
  }

  /** The state holds no requested time to eat and the node is not the extractor. */
  predicate NoTimeRequested(c: Config) {
    !c.state.whenToEatSpecified && c.node != DatetimeExtractor
  }

  lemma StepKeepsNoTimeRequested(c: Config, r: Replies, importTime: DateTime, floatRepr: real -> string, ln: real -> real)
    requires LnLaws(ln) && NoTimeRequested(c)
    requires Step(c, r, importTime, floatRepr, ln).Ok?
    ensures NoTimeRequested(Step(c, r, importTime, floatRepr, ln).value)
  {
    if c.node == StateUpdater {
      UpdaterMerge(c.state, r.updater, importTime);
    }
  }

  lemma {:induction false} RunKeepsNoTimeRequested(c: Config, rs: seq<Replies>, importTime: DateTime,
                                                  floatRepr: real -> string, ln: real -> real)
    requires LnLaws(ln) && NoTimeRequested(c)
    ensures var trace := Run(c, rs, importTime, floatRepr, ln);
      forall i :: 0 <= i < |trace| ==> NoTimeRequested(trace[i])
    decreases |rs|
  {
    var trace := Run(c, rs, importTime, floatRepr, ln);
    if c.node != End && |rs| > 0 && Step(c, rs[0], importTime, floatRepr, ln).Ok? {
      var next := Step(c, rs[0], importTime, floatRepr, ln).value;
      StepKeepsNoTimeRequested(c, rs[0], importTime, floatRepr, ln);
      RunKeepsNoTimeRequested(next, rs[1..], importTime, floatRepr, ln);
      assert trace == [c] + Run(next, rs[1..], importTime, floatRepr, ln);
    }
  }

  /** Starting from `create_initial_state`, the datetime extractor is never reached, since
      the updater keeps the initial False of `when_to_eat_specified`, whatever the replies;
      and the user's message stays the first of the conversation. */
  lemma ExtractorNeverReached(userInput: string, coordinates: Option<(real, real)>, importTime: DateTime,
                              rs: seq<Replies>, floatRepr: real -> string, ln: real -> real)
    requires LnLaws(ln)
    ensures var trace := Run(Config(EntryPoint, InitialState(userInput, coordinates, importTime)),
                             rs, importTime, floatRepr, ln);
      forall i :: 0 <= i < |trace| ==>
        trace[i].node != DatetimeExtractor && [HumanMessage(userInput)] <= trace[i].state.messages
  {
    var c := Config(EntryPoint, InitialState(userInput, coordinates, importTime));
    RunKeepsNoTimeRequested(c, rs, importTime, floatRepr, ln);
    RunAppendsMessages(c, rs, importTime, floatRepr, ln);
  }

  /** Once the extractor has run, the updater's router sends the run to the query
      formulator. */
  lemma ExtractorThenFormulator(c: Config, r1: Replies, r2: Replies, importTime: DateTime,
                                floatRepr: real -> string, ln: real -> real)
    requires LnLaws(ln) && c.node == DatetimeExtractor
    ensures var c1 := Step(c, r1, importTime, floatRepr, ln);
      && c1.Ok? && c1.value.node == StateUpdater && c1.value.state.datetimeExtracted
      && var c2 := Step(c1.value, r2, importTime, floatRepr, ln);
         c2.Ok? && c2.value.node == MapsQueryFormulator
  {
    var c1 := Step(c, r1, importTime, floatRepr, ln).value;
    UpdaterMerge(c1.state, r2.updater, importTime);
  }

  /** The extracted flag is set and the run is not at the extractor. */
  predicate ExtractedNotPending(c: Config) {
    c.state.datetimeExtracted && c.node != DatetimeExtractor
  }

  lemma StepKeepsExtracted(c: Config, r: Replies, importTime: DateTime, floatRepr: real -> string, ln: real -> real)
    requires LnLaws(ln) && ExtractedNotPending(c)
    requires Step(c, r, importTime, floatRepr, ln).Ok?
    ensures ExtractedNotPending(Step(c, r, importTime, floatRepr, ln).value)
  {
    if c.node == StateUpdater {
      UpdaterMerge(c.state, r.updater, importTime);
    }
  }

  /** Once the flag is set away from the extractor, no later state of the run is at the
      extractor. */
  lemma {:induction false} RunKeepsExtracted(c: Config, rs: seq<Replies>, importTime: DateTime,
                                            floatRepr: real -> string, ln: real -> real)
    requires LnLaws(ln) && ExtractedNotPending(c)
    ensures var trace := Run(c, rs, importTime, floatRepr, ln);
      forall i :: 0 <= i < |trace| ==> ExtractedNotPending(trace[i])
    decreases |rs|
  {
    var trace := Run(c, rs, importTime, floatRepr, ln);
    if c.node != End && |rs| > 0 && Step(c, rs[0], importTime, floatRepr, ln).Ok? {
      var next := Step(c, rs[0], importTime, floatRepr, ln).value;
      StepKeepsExtracted(c, rs[0], importTime, floatRepr, ln);
      RunKeepsExtracted(next, rs[1..], importTime, floatRepr, ln);
      assert trace == [c] + Run(next, rs[1..], importTime, floatRepr, ln);
    }
  }

  /** A run that starts at the extractor never comes back to it. */
  lemma ExtractorRunsOnce(c: Config, rs: seq<Replies>, importTime: DateTime,
                          floatRepr: real -> string, ln: real -> real)
    requires LnLaws(ln) && c.node == DatetimeExtractor
    ensures var trace := Run(c, rs, importTime, floatRepr, ln);
      forall i :: 1 <= i < |trace| ==> trace[i].node != DatetimeExtractor
  {
    var trace := Run(c, rs, importTime, floatRepr, ln);
    if |rs| > 0 {
      var next := Step(c, rs[0], importTime, floatRepr, ln).value;
      assert ExtractedNotPending(next);
      RunKeepsExtracted(next, rs[1..], importTime, floatRepr, ln);
      assert trace == [c] + Run(next, rs[1..], importTime, floatRepr, ln);
    }
  }

  /** After a successful search the supervisor answers with its reply followed by the
      recommendations, records the places by display name, and the run ends. */
  lemma SupervisorAfterSearch(c: Config, r: Replies, importTime: DateTime, floatRepr: real -> string, ln: real -> real)
    requires LnLaws(ln) && c.node == TeamSupervisor && SearchSucceeded(c.state.messages)
    ensures var next := Step(c, r, importTime, floatRepr, ln);
      var (validPlaces, invalidPlaces) := Last(c.state.messages).artifact;
      && next.Ok? && next.value.node == End
      && next.value.state.messages
         == c.state.messages + [AIMessage(r.supervisor.0 + "\n\n" + Recommendations(validPlaces, floatRepr), [])]
      && next.value.state.validPlaces == KeyedBy(validPlaces, DisplayName)
      && next.value.state.invalidPlaces == KeyedBy(invalidPlaces, RejectedName)
  {
    var s := c.state;
    var (validPlaces, invalidPlaces) := Last(s.messages).artifact;
    var m := AIMessage(r.supervisor.0 + "\n\n" + Recommendations(validPlaces, floatRepr), []);
    var u := NoUpdate.(messages := [m],
                       validPlaces := Some(KeyedBy(validPlaces, DisplayName)),
                       invalidPlaces := Some(KeyedBy(invalidPlaces, RejectedName)));
    assert SupervisorUpdate(s, r.supervisor, floatRepr) == Ok(u);
    var t := Apply(s, u);
    assert Last(t.messages) == m;
    assert WhatToDoNextForSupervisor(t) == Ok(End);
    assert Step(c, r, importTime, floatRepr, ln) == Ok(Config(End, t));
  }

  /** Otherwise the supervisor's reply is appended as it is, and the search tool runs next
      exactly when the reply asks for tool calls. */
  lemma SupervisorWithoutSearch(c: Config, r: Replies, importTime: DateTime, floatRepr: real -> string, ln: real -> real)
    requires LnLaws(ln) && c.node == TeamSupervisor && |c.state.messages| > 0
    requires !SearchSucceeded(c.state.messages)
    ensures var next := Step(c, r, importTime, floatRepr, ln);
      && next.Ok?
      && next.value.state == c.state.(messages := c.state.messages + [AIMessage(r.supervisor.0, r.supervisor.1)])
      && (next.value.node == SearchTool <==> |r.supervisor.1| > 0)
      && (next.value.node == SearchTool || next.value.node == End)
  {
  }

  /** The search tool answers every call of the supervisor's reply, in order, and the
      supervisor runs next. */
  lemma SearchAnswersEveryCall(c: Config, r: Replies, importTime: DateTime, floatRepr: real -> string, ln: real -> real)
    requires LnLaws(ln) && c.node == SearchTool && |c.state.messages| > 0
    requires Last(c.state.messages).AIMessage?
    ensures var next := Step(c, r, importTime, floatRepr, ln);
      var calls := Last(c.state.messages).toolCalls;
      && next.Ok? && next.value.node == TeamSupervisor
      && |next.value.state.messages| == |c.state.messages| + |calls|
      && forall i :: 0 <= i < |calls| ==>
           next.value.state.messages[|c.state.messages| + i]
           == ToolReply(calls[i], c.state, r.search, ln)
  {
    var u := ToolUpdate(c.state, r.search, ln);
    assert u.Ok?;
    assert Step(c, r, importTime, floatRepr, ln) == Ok(Config(TeamSupervisor, Apply(c.state, u.value)));
    assert Apply(c.state, u.value).messages == c.state.messages + u.value.messages;
  }
}
