/**
 * The dialogue engine `PopUpClaudeAgent` (popup-claude-agent.js).
 *
 * The first half states one turn of the conversation as pure functions over a
 * `Session` value (the agent's `conversationState`), the second half is the
 * agent itself: a class whose fields are that state and whose methods change
 * it step by step, each proved to do what the matching function says.
 *
 * The text generator is an oracle: each handler calls it at most once per
 * turn, and the `Reply` passed in is its answer for that turn. The database's
 * availability for a turn is the flag `storeUp`; when it is down every read
 * throws and every write is refused.
 */
module Dialogue {
  import opened Options
  import opened Catalog
  import opened Preferences
  import opened Text

  /** `conversationState.currentStep`. */
  datatype Step = Greeting | ProfileBuilding | RecommendationReady | RecommendationsShown

  /** What an entry of the question flow leads to. */
  datatype Next = Ask(question: QuestionType) | Complete

  datatype FlowEntry = FlowEntry(qtype: QuestionType, next: Next)

  /** `questionFlow`: the six questions in order, each naming the one asked after it. */
  const QuestionFlow: seq<FlowEntry> := [
    FlowEntry(CuisinePreference, Ask(BudgetRange)),
    FlowEntry(BudgetRange, Ask(DiningFrequency)),
    FlowEntry(DiningFrequency, Ask(LastRestaurant)),
    FlowEntry(LastRestaurant, Ask(DiningStyle)),
    FlowEntry(DiningStyle, Ask(DealInterest)),
    FlowEntry(DealInterest, Complete)
  ]

  datatype Role = User | Assistant

  /** An entry of `conversationHistory`. */
  datatype Turn = Turn(role: Role, content: string)

  /** The generator's answer for one turn: its text, or an exception. */
  datatype Reply = Generated(text: string) | GenerationFailed

  /** The fixed texts of the fallback paths; only which one is sent is modelled, not its wording. */
  datatype Canned =
    | GreetingFallback
    | WelcomeBackFallback(summary: string)
    | NextQuestionFallback(next: QuestionType)
    | MorePreferencesFallback
    | ProfileCompleteFallback
    | RecommendationFallback
    | FollowUpFallback
    | RephraseFallback

  /** The `message` of a response: generated text or a canned text. */
  datatype Message = Written(text: string) | Fallback(canned: Canned)

  /** The object a handler returns; absent keys are `None`. `needsResponse` is the source's constant flag. */
  datatype Response = Response(
    message: Message, needsResponse: bool, step: Step, questionType: Option<QuestionType>,
    options: Option<seq<string>>, restaurants: Option<seq<Restaurant>>, events: Option<seq<EventListing>>)

  /** The choices offered to a returning user. */
  const ResumeOptions: seq<string> := ["Get recommendations now", "Update my preferences", "Show me current deals"]

  /** The choices offered once the profile is complete. */
  const ReadyOptions: seq<string> := ["Yes, show me restaurants!", "Tell me about current deals", "Update something about my profile"]

  /**
   * `conversationState`. The flags `profileBuilding` and `profileComplete`
   * are never read or written after construction and are not kept.
   */
  datatype Session = Session(
    user: Option<string>, questionsAsked: seq<QuestionType>, userResponses: map<QuestionType, string>,
    step: Step, history: seq<Turn>)

  /** The state a new agent starts in. */
  const InitialSession: Session := Session(None, [], map[], Greeting, [])

  /** A preference the turn asks the store to insert. */
  datatype PendingSave = PendingSave(userId: string, preferenceType: string, preferenceValue: string)

  /** The result of one turn: the new state, what is returned (nothing, in `greeting`), and what is stored. */
  datatype Outcome = Outcome(after: Session, response: Option<Response>, save: Option<PendingSave>)

  /** The user is known in every step but the first. */
  predicate UserKnown(s: Session) {
    s.step != Greeting ==> s.user.Some?
  }

  /** The state a conversation keeps between turns. */
  ghost predicate Inv(s: Session) {
    |s.questionsAsked| <= |QuestionFlow| &&
    (forall i :: 0 <= i < |s.questionsAsked| ==> s.questionsAsked[i] == QuestionFlow[i].qtype) &&
    (forall q :: q in s.userResponses <==> q in s.questionsAsked) &&
    UserKnown(s) &&
    (s.step == RecommendationReady || s.step == RecommendationsShown ==> |s.questionsAsked| == |QuestionFlow|)
  }

  function MessageOf(gen: Reply, fallback: Canned): Message {
    if gen.Generated? then Written(gen.text) else Fallback(fallback)
  }

  /** The response of `processResponse`'s exception handler: it reports the current step. */
  function Rephrase(step: Step): Response {
    Response(Fallback(RephraseFallback), true, step, None, None, None, None)
  }

  // ---------------------------------------------------------------------
  // One turn, as functions of the state
  // ---------------------------------------------------------------------

  /** `generateGreetingMessage`: only a generated greeting moves the conversation on. */
  function Greet(s: Session, gen: Reply): (o: Outcome)
    ensures o.response.Some? && o.save == None
    ensures o.response.value.step == ProfileBuilding && o.response.value.questionType == Some(CuisinePreference)
    ensures o.after.step == ProfileBuilding <==> gen.Generated? || s.step == ProfileBuilding
    ensures o.after.questionsAsked == s.questionsAsked && o.after.userResponses == s.userResponses
    ensures o.after.user == s.user
    ensures gen.Generated? ==>
      o.after == s.(step := ProfileBuilding, history := s.history + [Turn(Assistant, gen.text)]) &&
      o.response.value.message == Written(gen.text)
    ensures gen.GenerationFailed? ==> o.after == s && o.response.value.message == Fallback(GreetingFallback)
  {
    var response := Response(MessageOf(gen, GreetingFallback), true, ProfileBuilding, Some(CuisinePreference), None, None, None);
    match gen
    case Generated(text) =>
      Outcome(s.(step := ProfileBuilding, history := s.history + [Turn(Assistant, text)]), Some(response), None)
    case GenerationFailed =>
      Outcome(s, Some(response), None)
  }

  /** `generateWelcomeBackMessage`: always reports `recommendation_ready` and the resume options. */
  function WelcomeBack(existing: seq<Preference>, gen: Reply): (r: Response)
    ensures r.step == RecommendationReady && r.options == Some(ResumeOptions)
    ensures gen.GenerationFailed? ==> r.message == Fallback(WelcomeBackFallback(SummarizePreferences(existing)))
  {
    Response(MessageOf(gen, WelcomeBackFallback(SummarizePreferences(existing))), true,
      RecommendationReady, None, Some(ResumeOptions), None, None)
  }

  /** The prefix of a user id made up from the clock, `user_<milliseconds>`. */
  const UserPrefix: string := "user_"

  /** `userId || generated`: a missing or empty id is replaced by the generated one. */
  function ChosenId(userId: Option<string>, generated: string): (id: string)
    ensures userId.Some? && userId.value != "" ==> id == userId.value
    ensures userId.None? || userId.value == "" ==> id == generated
  {
    if userId.Some? && userId.value != "" then userId.value else generated
  }

  /**
   * `startConversation`: sets the user and the step, then greets a new user or
   * welcomes back one with stored preferences. A failed read counts as a new user.
   * Nothing else of the state is reset.
   */
  function Start(s: Session, userId: Option<string>, stamp: string, t: Tables, storeUp: bool, gen: Reply): (o: Outcome)
    ensures o.after.user == Some(ChosenId(userId, UserPrefix + stamp))
    ensures o.after.questionsAsked == s.questionsAsked && o.after.userResponses == s.userResponses
    ensures o.response.Some? && o.save == None
    ensures var returning := storeUp && GetUserPreferences(t.preferences, ChosenId(userId, UserPrefix + stamp)) != [];
      (o.after.step == ProfileBuilding <==> !returning && gen.Generated?) &&
      (o.after.step == Greeting <==> returning || gen.GenerationFailed?) &&
      (returning ==> o.response.value.step == RecommendationReady && o.after.history == s.history) &&
      (returning ==> o.response.value == WelcomeBack(GetUserPreferences(t.preferences, ChosenId(userId, UserPrefix + stamp)), gen)) &&
      (!returning ==> o.response.value.step == ProfileBuilding && o.response.value.questionType == Some(CuisinePreference)) &&
      (!returning ==> o.after.history == s.history + (if gen.Generated? then [Turn(Assistant, gen.text)] else []))
  {
    var user := ChosenId(userId, UserPrefix + stamp);
    var s1 := s.(user := Some(user), step := Greeting);
    if storeUp && GetUserPreferences(t.preferences, user) != [] then
      Outcome(s1, Some(WelcomeBack(GetUserPreferences(t.preferences, user), gen)), None)
    else
      Greet(s1, gen)
  }

  /** `fallbackQuestions[next] || ...`: the table has no entry for the first question. */
  function FallbackFor(next: QuestionType): (c: Canned)
    ensures c == MorePreferencesFallback <==> next == CuisinePreference
  {
    if next == CuisinePreference then MorePreferencesFallback else NextQuestionFallback(next)
  }

  /** `completeProfileWithClaude`: always reports `recommendation_ready`; only a generated summary moves there. */
  function Completion(s: Session, gen: Reply): (o: Outcome)
    ensures o.response.Some? && o.save == None
    ensures o.response.value.step == RecommendationReady && o.response.value.options == Some(ReadyOptions)
    ensures o.after == if gen.Generated? then s.(step := RecommendationReady) else s
  {
    Outcome(if gen.Generated? then s.(step := RecommendationReady) else s,
      Some(Response(MessageOf(gen, ProfileCompleteFallback), true, RecommendationReady, None, Some(ReadyOptions), None, None)),
      None)
  }

  /**
   * `handleProfileBuildingWithClaude`: the number of questions already asked
   * picks the flow entry; its answer is recorded, stored (a refused write is
   * ignored) and added to the history, and the next question is asked, or the
   * profile completed after the last one. With all six asked, it only completes.
   */
  function ProfileTurn(s: Session, input: string, storeUp: bool, gen: Reply): (o: Outcome)
    requires s.user.Some?
    ensures o.response.Some? && o.after.user == s.user
    ensures |s.questionsAsked| >= |QuestionFlow| ==> o == Completion(s, gen)
    ensures |s.questionsAsked| < |QuestionFlow| ==>
      var q := QuestionFlow[|s.questionsAsked|].qtype;
      o.after.questionsAsked == s.questionsAsked + [q] &&
      o.after.userResponses == s.userResponses[q := input] &&
      o.save == (if storeUp then Some(PendingSave(s.user.value, q.Name(), input)) else None) &&
      s.history + [Turn(User, input)] <= o.after.history
    ensures |s.questionsAsked| < |QuestionFlow| - 1 ==>
      var next := QuestionFlow[|s.questionsAsked| + 1].qtype;
      o.after.step == s.step &&
      o.after.history == s.history + [Turn(User, input)] + (if gen.Generated? then [Turn(Assistant, gen.text)] else []) &&
      o.response.value.step == ProfileBuilding && o.response.value.questionType == Some(next) &&
      o.response.value.message == MessageOf(gen, FallbackFor(next)) &&
      o.response.value.options == None && o.response.value.restaurants == None && o.response.value.events == None
    ensures |s.questionsAsked| == |QuestionFlow| - 1 ==>
      var q := QuestionFlow[|s.questionsAsked|].qtype;
      var recorded := s.(questionsAsked := s.questionsAsked + [q], userResponses := s.userResponses[q := input],
                         history := s.history + [Turn(User, input)]);
      o.after == Completion(recorded, gen).after && o.response == Completion(recorded, gen).response
    ensures o.response.value.message != Fallback(MorePreferencesFallback)
  {
    var k := |s.questionsAsked|;
    if k >= |QuestionFlow| then Completion(s, gen)
    else
      var entry := QuestionFlow[k];
      var recorded := s.(questionsAsked := s.questionsAsked + [entry.qtype],
                         userResponses := s.userResponses[entry.qtype := input],
                         history := s.history + [Turn(User, input)]);
      var save := if storeUp then Some(PendingSave(s.user.value, entry.qtype.Name(), input)) else None;
      match entry.next
      case Complete => Completion(recorded, gen).(save := save)
      case Ask(next) =>
        var response := Response(MessageOf(gen, FallbackFor(next)), true, ProfileBuilding, Some(next), None, None, None);
        var after := if gen.Generated? then recorded.(history := recorded.history + [Turn(Assistant, gen.text)]) else recorded;
        Outcome(after, Some(response), save)
  }

  /** The lists a recommendation carries. */
  datatype Picks = Picks(restaurants: seq<Restaurant>, events: seq<EventListing>)

  /**
   * The recommendation filter: the restaurants of the preferred cuisine when
   * one is set (all of them otherwise), kept only at the preferred price range
   * when one is set. An empty string counts as not set.
   */
  function CandidateRestaurants(rs: seq<Restaurant>, profile: UserProfile): seq<Restaurant> {
    var candidates := if Truthy(profile.cuisinePreference) then GetRestaurantsByCuisine(rs, profile.cuisinePreference.value)
                      else GetAllRestaurants(rs);
    if Truthy(profile.budgetRange) then Filter(candidates, PricedAt(profile.budgetRange.value)) else candidates
  }

  /** What `handleRecommendationWithClaude` reads: the user's profile, the candidates and the active events. */
  function Recommendations(t: Tables, user: string): Picks {
    var profile := ProfileOf(GetUserPreferences(t.preferences, user));
    Picks(CandidateRestaurants(t.restaurants, profile), GetActiveEvents(t.restaurants, t.events))
  }

  /** `handleRecommendationWithClaude`: a failed read or generation leaves the state as it is. */
  function RecommendationTurn(s: Session, t: Tables, storeUp: bool, gen: Reply): (o: Outcome)
    requires s.user.Some?
    ensures o.response.Some? && o.save == None
    ensures storeUp && gen.Generated? ==>
      o.after == s.(step := RecommendationsShown) && o.response.value.step == RecommendationsShown &&
      o.response.value.restaurants == Some(Recommendations(t, s.user.value).restaurants) &&
      o.response.value.events == Some(GetActiveEvents(t.restaurants, t.events))
    ensures !storeUp || gen.GenerationFailed? ==>
      o.after == s && o.response.value.step == RecommendationReady &&
      o.response.value.restaurants == None && o.response.value.events == None
  {
    if storeUp && gen.Generated? then
      var picks := Recommendations(t, s.user.value);
      Outcome(s.(step := RecommendationsShown),
        Some(Response(Written(gen.text), true, RecommendationsShown, None, None, Some(picks.restaurants), Some(picks.events))),
        None)
    else
      Outcome(s, Some(Response(Fallback(RecommendationFallback), true, RecommendationReady, None, None, None, None)), None)
  }

  /**
   * `handleFollowUpWithClaude`: its store reads sit outside its own `try`, so a
   * failed read escapes it (`None`); a failed generation is caught inside.
   */
  function FollowUpTurn(storeUp: bool, gen: Reply): (r: Option<Response>)
    ensures r.Some? <==> storeUp
    ensures r.Some? ==> r.value.step == RecommendationsShown && r.value.restaurants == None
  {
    if !storeUp then None
    else Some(Response(MessageOf(gen, FollowUpFallback), true, RecommendationsShown, None, None, None, None))
  }

  /**
   * `processResponse`: dispatch on the step. In `greeting` nothing is
   * returned; an exception escaping a handler becomes the rephrase response.
   */
  function Respond(s: Session, input: string, t: Tables, storeUp: bool, gen: Reply): (o: Outcome)
    requires UserKnown(s)
    ensures UserKnown(o.after) && o.after.user == s.user
    ensures s.step == Greeting <==> o.response == None
    ensures s.step == Greeting || s.step == RecommendationsShown ==> o.after == s && o.save == None
    ensures o.response.Some? ==> o.response.value.needsResponse
    ensures o.response.Some? ==>
      (o.response.value.step != o.after.step <==>
       s.step == ProfileBuilding && |s.questionsAsked| >= |QuestionFlow| - 1 && gen.GenerationFailed?)
    ensures s.questionsAsked <= o.after.questionsAsked && |o.after.questionsAsked| <= |s.questionsAsked| + 1
    ensures s.history <= o.after.history
  {
    match s.step
    case Greeting => Outcome(s, None, None)
    case ProfileBuilding => ProfileTurn(s, input, storeUp, gen)
    case RecommendationReady => RecommendationTurn(s, t, storeUp, gen)
    case RecommendationsShown =>
      var r := FollowUpTurn(storeUp, gen);
      Outcome(s, Some(if r.Some? then r.value else Rephrase(s.step)), None)
  }

  // ---------------------------------------------------------------------
  // Properties of the conversation
  // ---------------------------------------------------------------------

  /** Starting (again) keeps the conversation invariant. */
  lemma StartKeepsInv(s: Session, userId: Option<string>, stamp: string, t: Tables, storeUp: bool, gen: Reply)
    requires Inv(s)
    ensures Inv(Start(s, userId, stamp, t, storeUp, gen).after)
  {
  }

  /**
   * A turn keeps the conversation invariant: the questions asked are always a
   * prefix of the flow, each with an answer, and a recommendation is only
   * reached with all six asked.
   */
  lemma RespondKeepsInv(s: Session, input: string, t: Tables, storeUp: bool, gen: Reply)
    requires Inv(s)
    ensures Inv(Respond(s, input, t, storeUp, gen).after)
  {
    var o := Respond(s, input, t, storeUp, gen);
    if s.step == ProfileBuilding && |s.questionsAsked| < |QuestionFlow| {
      var q := QuestionFlow[|s.questionsAsked|].qtype;
      forall x ensures x in o.after.userResponses <==> x in o.after.questionsAsked {
        assert x in o.after.questionsAsked <==> x in s.questionsAsked || x == q;
      }
    }
  }

  /** Shown recommendations are final: no turn leaves that step or changes the state. */
  lemma RecommendationsShownIsFinal(s: Session, inputs: seq<string>, t: Tables, storeUp: bool, gens: seq<Reply>)
    requires s.step == RecommendationsShown && s.user.Some? && |gens| == |inputs|
    ensures Replay(s, inputs, t, storeUp, gens) == s
  {
  }

  /** A sequence of message turns against fixed tables (stored answers are not read back during these turns). */
  function Replay(s: Session, inputs: seq<string>, t: Tables, storeUp: bool, gens: seq<Reply>): Session
    requires UserKnown(s) && |gens| == |inputs|
    ensures UserKnown(Replay(s, inputs, t, storeUp, gens))
    decreases |inputs|
  {
    if inputs == [] then s
    else Replay(Respond(s, inputs[0], t, storeUp, gens[0]).after, inputs[1..], t, storeUp, gens[1..])
  }

  /** All generator answers succeed. */
  predicate AllGenerated(gens: seq<Reply>) {
    forall i :: 0 <= i < |gens| ==> gens[i].Generated?
  }

  /** A profile turn before the last question: the answer is recorded and the step stays. */
  lemma ProfileStep(s: Session, input: string, t: Tables, storeUp: bool, gen: Reply)
    requires s.step == ProfileBuilding && s.user.Some? && |s.questionsAsked| < |QuestionFlow| - 1
    ensures var e := Respond(s, input, t, storeUp, gen).after;
      e.step == ProfileBuilding && e.user == s.user &&
      e.questionsAsked == s.questionsAsked + [QuestionFlow[|s.questionsAsked|].qtype] &&
      e.userResponses == s.userResponses[QuestionFlow[|s.questionsAsked|].qtype := input]
  {
  }

  /** Replaying answers in `profile_building` is replaying the rest from the state the first answer leads to. */
  lemma ProfileReplayHead(s: Session, inputs: seq<string>, t: Tables, storeUp: bool, gens: seq<Reply>) returns (s1: Session)
    requires s.step == ProfileBuilding && s.user.Some? && |gens| == |inputs| && inputs != []
    requires |s.questionsAsked| < |QuestionFlow| - 1
    ensures s1.step == ProfileBuilding && s1.user == s.user
    ensures s1.questionsAsked == s.questionsAsked + [QuestionFlow[|s.questionsAsked|].qtype]
    ensures s1.userResponses == s.userResponses[QuestionFlow[|s.questionsAsked|].qtype := inputs[0]]
    ensures Replay(s, inputs, t, storeUp, gens) == Replay(s1, inputs[1..], t, storeUp, gens[1..])
  {
    ProfileStep(s, inputs[0], t, storeUp, gens[0]);
    s1 := Respond(s, inputs[0], t, storeUp, gens[0]).after;
  }

  /** The answers map after recording `inputs` against the flow entries from `k` on. */
  ghost function Recorded(m: map<QuestionType, string>, k: nat, inputs: seq<string>): map<QuestionType, string>
    requires k + |inputs| <= |QuestionFlow|
    decreases |inputs|
  {
    if inputs == [] then m else Recorded(m[QuestionFlow[k].qtype := inputs[0]], k + 1, inputs[1..])
  }

  /** Each recorded answer sits under its question's type, since the flow's types are distinct. */
  lemma {:induction false} RecordedLookup(m: map<QuestionType, string>, k: nat, inputs: seq<string>, i: nat)
    requires k + |inputs| <= |QuestionFlow| && i < |inputs|
    ensures QuestionFlow[k + i].qtype in Recorded(m, k, inputs)
    ensures Recorded(m, k, inputs)[QuestionFlow[k + i].qtype] == inputs[i]
    decreases |inputs|
  {
    var m1 := m[QuestionFlow[k].qtype := inputs[0]];
    if i == 0 {
      RecordedKeeps(m1, k + 1, inputs[1..], QuestionFlow[k].qtype);
    } else {
      RecordedLookup(m1, k + 1, inputs[1..], i - 1);
    }
  }

  /** A type asked before position `k` is not touched by recording from `k` on. */
  lemma {:induction false} RecordedKeeps(m: map<QuestionType, string>, k: nat, inputs: seq<string>, q: QuestionType)
    requires k + |inputs| <= |QuestionFlow| && q in m
    requires forall j :: k <= j < |QuestionFlow| ==> QuestionFlow[j].qtype != q
    ensures q in Recorded(m, k, inputs) && Recorded(m, k, inputs)[q] == m[q]
    decreases |inputs|
  {
    if inputs != [] {
      RecordedKeeps(m[QuestionFlow[k].qtype := inputs[0]], k + 1, inputs[1..], q);
    }
  }

  /** The question types of flow positions `k` up to `n`. */
  ghost function FlowTypes(k: nat, n: nat): (r: seq<QuestionType>)
    requires k <= n <= |QuestionFlow|
    ensures |r| == n - k && forall i :: 0 <= i < |r| ==> r[i] == QuestionFlow[k + i].qtype
    decreases n - k
  {
    if k == n then [] else [QuestionFlow[k].qtype] + FlowTypes(k + 1, n)
  }

  /** Fewer answers than questions left keep the conversation in `profile_building`, recording each in order. */
  lemma {:induction false} ReplayProfileAnswers(s: Session, inputs: seq<string>, t: Tables, storeUp: bool, gens: seq<Reply>)
    requires s.step == ProfileBuilding && s.user.Some? && |gens| == |inputs|
    requires |s.questionsAsked| + |inputs| < |QuestionFlow|
    ensures var e := Replay(s, inputs, t, storeUp, gens);
      e.step == ProfileBuilding && e.user == s.user &&
      e.questionsAsked == s.questionsAsked + FlowTypes(|s.questionsAsked|, |s.questionsAsked| + |inputs|) &&
      e.userResponses == Recorded(s.userResponses, |s.questionsAsked|, inputs)
    decreases |inputs|
  {
    if inputs != [] {
      var k := |s.questionsAsked|;
      var s1 := ProfileReplayHead(s, inputs, t, storeUp, gens);
      ReplayProfileAnswers(s1, inputs[1..], t, storeUp, gens[1..]);
      FlowTypesStep(s.questionsAsked, k, k + |inputs|);
      assert Recorded(s.userResponses, k, inputs) == Recorded(s1.userResponses, k + 1, inputs[1..]);
    }
  }

  /** Asking the question at `k` moves its type from the flow's remainder onto the asked list. */
  lemma FlowTypesStep(asked: seq<QuestionType>, k: nat, n: nat)
    requires k < n <= |QuestionFlow|
    ensures asked + FlowTypes(k, n) == (asked + [QuestionFlow[k].qtype]) + FlowTypes(k + 1, n)
  {
    assert FlowTypes(k, n) == [QuestionFlow[k].qtype] + FlowTypes(k + 1, n);
  }

  /** The six types of the flow are distinct. */
  lemma FlowTypesDistinct()
    ensures forall i, j :: 0 <= i < j < |QuestionFlow| ==> QuestionFlow[i].qtype != QuestionFlow[j].qtype
  {
  }

  /**
   * Six answers from a fresh profile, with every generation succeeding, ask
   * the six questions in order, record each answer under its type, and reach
   * `recommendation_ready`.
   */
  lemma SixAnswersReachReady(s: Session, inputs: seq<string>, t: Tables, storeUp: bool, gens: seq<Reply>)
    requires s.step == ProfileBuilding && s.user.Some? && s.questionsAsked == []
    requires |inputs| == |QuestionFlow| && |gens| == |inputs| && AllGenerated(gens)
    ensures var e := Replay(s, inputs, t, storeUp, gens);
      e.step == RecommendationReady && |e.questionsAsked| == |QuestionFlow| &&
      (forall i :: 0 <= i < |QuestionFlow| ==> e.questionsAsked[i] == QuestionFlow[i].qtype) &&
      (forall i :: 0 <= i < |QuestionFlow| ==>
        QuestionFlow[i].qtype in e.userResponses && e.userResponses[QuestionFlow[i].qtype] == inputs[i])
  {
    var n := |QuestionFlow| - 1;
    var mid := Replay(s, inputs[..n], t, storeUp, gens[..n]);
    var e := Replay(s, inputs, t, storeUp, gens);
    assert e == Replay(mid, [inputs[n]], t, storeUp, [gens[n]]) by {
      ReplayFront(s, inputs, t, storeUp, gens, n);
      LastSlice(inputs);
      LastSlice(gens);
    }
    assert mid.step == ProfileBuilding && mid.user.Some? && mid.questionsAsked == FlowTypes(0, n) &&
           mid.userResponses == Recorded(s.userResponses, 0, inputs[..n]) by {
      ReplayProfileAnswers(s, inputs[..n], t, storeUp, gens[..n]);
    }
    assert e.step == RecommendationReady && e.questionsAsked == FlowTypes(0, n) + [QuestionFlow[n].qtype] &&
           e.userResponses == Recorded(s.userResponses, 0, inputs[..n])[QuestionFlow[n].qtype := inputs[n]] by {
      LastAnswerCompletes(mid, inputs[n], t, storeUp, gens[n]);
    }
    AllAnswersRecorded(s.userResponses, inputs);
  }

  /** The slice from the last index holds the last element alone. */
  lemma LastSlice<T>(xs: seq<T>)
    requires xs != []
    ensures xs[|xs| - 1..] == [xs[|xs| - 1]]
  {
  }

  /** Recording the first five answers and then the sixth puts every answer under its question's type. */
  lemma AllAnswersRecorded(m: map<QuestionType, string>, inputs: seq<string>)
    requires |inputs| == |QuestionFlow|
    ensures var n := |QuestionFlow| - 1;
      var r := Recorded(m, 0, inputs[..n])[QuestionFlow[n].qtype := inputs[n]];
      forall i :: 0 <= i < |QuestionFlow| ==> QuestionFlow[i].qtype in r && r[QuestionFlow[i].qtype] == inputs[i]
  {
    var n := |QuestionFlow| - 1;
    FlowTypesDistinct();
    forall i | 0 <= i < n
      ensures QuestionFlow[i].qtype in Recorded(m, 0, inputs[..n])
      ensures Recorded(m, 0, inputs[..n])[QuestionFlow[i].qtype] == inputs[i]
    {
      RecordedLookup(m, 0, inputs[..n], i);
      assert inputs[..n][i] == inputs[i];
    }
  }

  /** The answer to the last question, with the generation succeeding, completes the profile. */
  lemma LastAnswerCompletes(s: Session, input: string, t: Tables, storeUp: bool, gen: Reply)
    requires s.step == ProfileBuilding && s.user.Some? && gen.Generated?
    requires s.questionsAsked == FlowTypes(0, |QuestionFlow| - 1)
    ensures var e := Replay(s, [input], t, storeUp, [gen]);
      e.step == RecommendationReady &&
      e.questionsAsked == s.questionsAsked + [QuestionFlow[|QuestionFlow| - 1].qtype] &&
      e.userResponses == s.userResponses[QuestionFlow[|QuestionFlow| - 1].qtype := input]
  {
    assert |s.questionsAsked| == |QuestionFlow| - 1;
    assert Replay(s, [input], t, storeUp, [gen]) == Respond(s, input, t, storeUp, gen).after;
  }

  /** Replaying a sequence is replaying its first `n` turns, then the rest. */
  lemma {:induction false} ReplayFront(s: Session, inputs: seq<string>, t: Tables, storeUp: bool, gens: seq<Reply>, n: nat)
    requires UserKnown(s) && |gens| == |inputs| && n <= |inputs|
    ensures Replay(s, inputs, t, storeUp, gens) ==
      Replay(Replay(s, inputs[..n], t, storeUp, gens[..n]), inputs[n..], t, storeUp, gens[n..])
    decreases n
  {
    if n > 0 {
      var s1 := Respond(s, inputs[0], t, storeUp, gens[0]).after;
      ReplayFront(s1, inputs[1..], t, storeUp, gens[1..], n - 1);
      assert inputs[..n][1..] == inputs[1..][..n - 1] && gens[..n][1..] == gens[1..][..n - 1];
      assert inputs[1..][n - 1..] == inputs[n..] && gens[1..][n - 1..] == gens[n..];
    }
  }

  /**
   * With the generator always failing the greeting never moves the step on,
   * so every later message gets no response at all.
   */
  lemma GeneratorDownStaysInGreeting(s: Session, userId: Option<string>, stamp: string, t: Tables, storeUp: bool,
                                     inputs: seq<string>)
    requires s.step == Greeting
    ensures var o := Start(s, userId, stamp, t, storeUp, GenerationFailed);
      o.after.step == Greeting &&
      Replay(o.after, inputs, t, storeUp, seq(|inputs|, _ => GenerationFailed)) == o.after
  {
    var o := Start(s, userId, stamp, t, storeUp, GenerationFailed);
    GreetingIgnoresMessages(o.after, inputs, t, storeUp, seq(|inputs|, _ => GenerationFailed));
  }

  lemma {:induction false} GreetingIgnoresMessages(s: Session, inputs: seq<string>, t: Tables, storeUp: bool, gens: seq<Reply>)
    requires s.step == Greeting && |gens| == |inputs|
    ensures Replay(s, inputs, t, storeUp, gens) == s
    decreases |inputs|
  {
    if inputs != [] {
      GreetingIgnoresMessages(s, inputs[1..], t, storeUp, gens[1..]);
    }
  }

  /**
   * A returning user is told `recommendation_ready` but the step stays
   * `greeting`, so their next message gets no response.
   */
  lemma ReturningUserIsNotAnswered(s: Session, userId: Option<string>, stamp: string, t: Tables, gen: Reply,
                                   input: string, next: Reply)
    requires GetUserPreferences(t.preferences, ChosenId(userId, UserPrefix + stamp)) != []
    ensures var o := Start(s, userId, stamp, t, true, gen);
      o.response.value.step == RecommendationReady && o.after.step == Greeting &&
      Respond(o.after, input, t, true, next).response == None
  {
  }

  /**
   * The restaurants recommended are exactly those of the table that match the
   * set preferences (cuisine by LIKE, price exactly), best rated first.
   */
  lemma CandidatesMatchProfile(rs: seq<Restaurant>, profile: UserProfile)
    ensures var r := CandidateRestaurants(rs, profile);
      SortedDesc(r, ByRating) &&
      forall x :: x in r <==>
        (x in rs &&
         (Truthy(profile.cuisinePreference) ==> Like(x.cuisineType, "%" + profile.cuisinePreference.value + "%")) &&
         (Truthy(profile.budgetRange) ==> x.priceRange == profile.budgetRange.value))
    ensures var r := CandidateRestaurants(rs, profile);
      forall x :: multiset(r)[x] ==
        if (Truthy(profile.cuisinePreference) ==> Like(x.cuisineType, "%" + profile.cuisinePreference.value + "%")) &&
           (Truthy(profile.budgetRange) ==> x.priceRange == profile.budgetRange.value)
        then multiset(rs)[x] else 0
  {
    var candidates := if Truthy(profile.cuisinePreference) then GetRestaurantsByCuisine(rs, profile.cuisinePreference.value)
                      else GetAllRestaurants(rs);
    forall x ensures multiset(CandidateRestaurants(rs, profile))[x] ==
      if (Truthy(profile.cuisinePreference) ==> Like(x.cuisineType, "%" + profile.cuisinePreference.value + "%")) &&
         (Truthy(profile.budgetRange) ==> x.priceRange == profile.budgetRange.value)
      then multiset(rs)[x] else 0
    {
      if Truthy(profile.cuisinePreference) {
        CuisineQueryCount(rs, profile.cuisinePreference.value, x);
      }
      if Truthy(profile.budgetRange) {
        FilterCount(candidates, PricedAt(profile.budgetRange.value), x);
      }
    }
    assert forall x :: x in candidates <==>
      (x in rs && (Truthy(profile.cuisinePreference) ==> Like(x.cuisineType, "%" + profile.cuisinePreference.value + "%"))) by {
      if !Truthy(profile.cuisinePreference) {
        forall x ensures x in candidates <==> x in rs {
          assert x in candidates <==> x in multiset(candidates);
        }
      }
    }
    if Truthy(profile.budgetRange) {
      FilterKeepsOrder(candidates, PricedAt(profile.budgetRange.value), ByRating);
      forall x ensures x in CandidateRestaurants(rs, profile) <==> x in candidates && x.priceRange == profile.budgetRange.value {
        FilterMember(candidates, PricedAt(profile.budgetRange.value), x);
      }
    }
  }

  /** With only a budget set, the candidates are exactly the price-range query. */
  lemma BudgetOnlyIsPriceQuery(rs: seq<Restaurant>, profile: UserProfile)
    requires !Truthy(profile.cuisinePreference) && Truthy(profile.budgetRange)
    ensures CandidateRestaurants(rs, profile) == GetRestaurantsByPriceRange(rs, profile.budgetRange.value)
  {
    FilterSortCommute(rs, ByRating, PricedAt(profile.budgetRange.value));
  }

  /**
   * A cuisine answer longer than every stored cuisine type (such as a whole
   * sentence, "I love Italian food") is used as the LIKE pattern as it is and
   * selects no restaurant.
   */
  lemma LongCuisineAnswerFindsNothing(rs: seq<Restaurant>, profile: UserProfile)
    requires Truthy(profile.cuisinePreference)
    requires forall j :: 0 <= j < |profile.cuisinePreference.value| ==> !IsLikeWildcard(profile.cuisinePreference.value[j])
    requires forall x :: x in rs ==> |x.cuisineType| < |profile.cuisinePreference.value|
    ensures CandidateRestaurants(rs, profile) == []
  {
    var c := profile.cuisinePreference.value;
    CandidatesMatchProfile(rs, profile);
    forall x | x in rs ensures !Like(x.cuisineType, "%" + c + "%") {
      LikeContainsFolded(x.cuisineType, c);
    }
  }

  // ---------------------------------------------------------------------
  // The agent object
  // ---------------------------------------------------------------------

  /** The preference rows a pending save becomes, stored under `id` at time `now`. */
  function SavedRows(save: Option<PendingSave>, id: int, now: int): seq<Preference> {
    if save.Some? then [Preference(id, save.value.userId, save.value.preferenceType, save.value.preferenceValue, now)] else []
  }

  /** `PopUpClaudeAgent`: its `conversationState` fields, its database and whether it has been closed. */
  class Agent {
    var currentUser: Option<string>
    var questionsAsked: seq<QuestionType>
    var userResponses: map<QuestionType, string>
    var currentStep: Step
    var conversationHistory: seq<Turn>
    var closed: bool
    const db: RestaurantDatabase

    function State(): Session
      reads this
    {
      Session(currentUser, questionsAsked, userResponses, currentStep, conversationHistory)
    }

    /** The conversation invariant holds of the agent's state. */
    ghost predicate Valid()
      reads this
    {
      Inv(State())
    }

    constructor (db: RestaurantDatabase)
      ensures Valid() && State() == InitialSession && !closed && this.db == db
    {
      this.db := db;
      currentUser := None;
      questionsAsked := [];
      userResponses := map[];
      currentStep := Greeting;
      conversationHistory := [];
      closed := false;
    }

    method StartConversation(userId: Option<string>, stamp: string, storeUp: bool, gen: Reply)
      returns (response: Response)
      requires Valid()
      modifies this
      ensures Valid() && closed == old(closed)
      ensures var o := Start(old(State()), userId, stamp, db.Snapshot(), storeUp, gen);
        State() == o.after && o.response == Some(response)
    {
      ghost var s1 := old(State()).(user := Some(ChosenId(userId, UserPrefix + stamp)), step := Greeting);
      currentUser := Some(ChosenId(userId, UserPrefix + stamp));
      currentStep := Greeting;
      assert State() == s1;
      if storeUp {
        var existing := GetUserPreferences(db.preferences, currentUser.value);
        if existing != [] {
          response := WelcomeBack(existing, gen);
          assert Start(old(State()), userId, stamp, db.Snapshot(), storeUp, gen) == Outcome(s1, Some(response), None);
          return;
        }
      }
      assert Start(old(State()), userId, stamp, db.Snapshot(), storeUp, gen) == Greet(s1, gen);
      response := GenerateGreetingMessage(gen);
    }

    method GenerateGreetingMessage(gen: Reply) returns (response: Response)
      requires Valid() && currentUser.Some?
      modifies this
      ensures Valid() && closed == old(closed)
      ensures var o := Greet(old(State()), gen); State() == o.after && o.response == Some(response)
    {
      response := Response(MessageOf(gen, GreetingFallback), true, ProfileBuilding, Some(CuisinePreference), None, None, None);
      if gen.Generated? {
        currentStep := ProfileBuilding;
        conversationHistory := conversationHistory + [Turn(Assistant, gen.text)];
      }
    }

    method ProcessResponse(input: string, storeUp: bool, gen: Reply, now: int) returns (response: Option<Response>)
      requires Valid() && db.Valid()
      modifies this, db
      ensures Valid() && db.Valid() && closed == old(closed)
      ensures var o := Respond(old(State()), input, old(db.Snapshot()), storeUp, gen);
        State() == o.after && response == o.response &&
        db.restaurants == old(db.restaurants) && db.events == old(db.events) &&
        db.preferences == old(db.preferences) + SavedRows(o.save, old(db.nextId), now) &&
        db.nextId == old(db.nextId) + |SavedRows(o.save, old(db.nextId), now)|
    {
      RespondKeepsInv(State(), input, db.Snapshot(), storeUp, gen);
      if currentStep == ProfileBuilding {
        var r := HandleProfileBuilding(input, storeUp, gen, now);
        response := Some(r);
      } else if currentStep == RecommendationReady {
        var r := HandleRecommendation(storeUp, gen);
        response := Some(r);
      } else if currentStep == RecommendationsShown {
        var r := FollowUpTurn(storeUp, gen);
        response := Some(if r.Some? then r.value else Rephrase(currentStep));
      } else {
        response := None;
      }
    }

    method HandleProfileBuilding(input: string, storeUp: bool, gen: Reply, now: int) returns (response: Response)
      requires Valid() && db.Valid() && currentStep == ProfileBuilding
      modifies this, db
      ensures Valid() && db.Valid() && closed == old(closed)
      ensures var o := ProfileTurn(old(State()), input, storeUp, gen);
        State() == o.after && o.response == Some(response) &&
        db.restaurants == old(db.restaurants) && db.events == old(db.events) &&
        db.preferences == old(db.preferences) + SavedRows(o.save, old(db.nextId), now) &&
        db.nextId == old(db.nextId) + |SavedRows(o.save, old(db.nextId), now)|
    {
      var k := |questionsAsked|;
      if k >= |QuestionFlow| {
        response := CompleteProfile(gen);
        return;
      }
      var entry := QuestionFlow[k];
      RecordAnswer(entry.qtype, input, storeUp, now);
      if entry.next == Complete {
        response := CompleteProfile(gen);
        return;
      }
      var next := entry.next.question;
      response := Response(MessageOf(gen, FallbackFor(next)), true, ProfileBuilding, Some(next), None, None, None);
      if gen.Generated? {
        conversationHistory := conversationHistory + [Turn(Assistant, gen.text)];
      }
    }

    /** Records the answer to the current question in memory and in the store, and the user's turn in the history. */
    method RecordAnswer(q: QuestionType, input: string, storeUp: bool, now: int)
      requires Valid() && db.Valid() && currentStep == ProfileBuilding
      requires |questionsAsked| < |QuestionFlow| && q == QuestionFlow[|questionsAsked|].qtype
      modifies this, db
      ensures Valid() && db.Valid() && closed == old(closed)
      ensures State() == old(State()).(questionsAsked := old(questionsAsked) + [q],
                                       userResponses := old(userResponses)[q := input],
                                       history := old(conversationHistory) + [Turn(User, input)])
      ensures db.restaurants == old(db.restaurants) && db.events == old(db.events)
      ensures var rows := SavedRows(if storeUp then Some(PendingSave(currentUser.value, q.Name(), input)) else None,
                                    old(db.nextId), now);
        db.preferences == old(db.preferences) + rows && db.nextId == old(db.nextId) + |rows|
    {
      questionsAsked := questionsAsked + [q];
      userResponses := userResponses[q := input];
      SaveUserPreference(q.Name(), input, storeUp, now);
      conversationHistory := conversationHistory + [Turn(User, input)];
      assert forall x :: x in userResponses <==> x in questionsAsked;
    }

    /** The agent's `saveUserPreference`: stores under the current user; a refused write is ignored. */
    method SaveUserPreference(preferenceType: string, preferenceValue: string, storeUp: bool, now: int)
      requires db.Valid() && currentUser.Some?
      modifies db
      ensures db.Valid()
      ensures db.restaurants == old(db.restaurants) && db.events == old(db.events)
      ensures var rows := SavedRows(if storeUp then Some(PendingSave(currentUser.value, preferenceType, preferenceValue)) else None,
                                    old(db.nextId), now);
        db.preferences == old(db.preferences) + rows && db.nextId == old(db.nextId) + |rows|
    {
      if storeUp {
        var _ := db.SaveUserPreference(currentUser.value, preferenceType, preferenceValue, now);
      }
    }

    method CompleteProfile(gen: Reply) returns (response: Response)
      requires Valid() && currentStep == ProfileBuilding && |questionsAsked| == |QuestionFlow|
      modifies this
      ensures Valid() && closed == old(closed)
      ensures var o := Completion(old(State()), gen); State() == o.after && o.response == Some(response)
    {
      response := Response(MessageOf(gen, ProfileCompleteFallback), true, RecommendationReady, None, Some(ReadyOptions), None, None);
      if gen.Generated? {
        currentStep := RecommendationReady;
      }
    }

    method HandleRecommendation(storeUp: bool, gen: Reply) returns (response: Response)
      requires Valid() && currentStep == RecommendationReady
      modifies this
      ensures Valid() && closed == old(closed)
      ensures var o := RecommendationTurn(old(State()), db.Snapshot(), storeUp, gen);
        State() == o.after && o.response == Some(response)
    {
      response := Response(Fallback(RecommendationFallback), true, RecommendationReady, None, None, None, None);
      if !storeUp {
        return;
      }
      var preferences := GetUserPreferences(db.preferences, currentUser.value);
      var profile := AnalyzeUserPreferences(preferences);
      var restaurants := if Truthy(profile.cuisinePreference) then GetRestaurantsByCuisine(db.restaurants, profile.cuisinePreference.value)
                         else GetAllRestaurants(db.restaurants);
      if Truthy(profile.budgetRange) {
        restaurants := Filter(restaurants, PricedAt(profile.budgetRange.value));
      }
      var events := GetActiveEvents(db.restaurants, db.events);
      if gen.Generated? {
        currentStep := RecommendationsShown;
        response := Response(Written(gen.text), true, RecommendationsShown, None, None, Some(restaurants), Some(events));
      }
    }

    /** `close`: the agent's database connection is closed; the conversation state is untouched. */
    method Close()
      modifies this
      ensures closed && State() == old(State())
    {
      closed := true;
    }
  }
}
