# PopUp restaurant chat: a Dafny model of its core

PopUp is a restaurant-recommendation chat. A small Express server keeps a
registry of chat sessions. Each session has a `PopUpClaudeAgent`, which is a
dialogue state machine:

1. It greets the user, or welcomes back a user it already knows.
2. It asks six profile questions in a fixed order and stores each answer in
   SQLite.
3. It turns the stored answers into a profile and queries matching
   restaurants and active deals.
4. It answers follow-up questions.

The React Native chat screen decides on the client whether a typed message
is a map request, which opens the map, or a message for the agent.

This project models that core:

| file | module | models |
|---|---|---|
| `options.dfy` | `Options` | the optional value used for JavaScript's `null`/`undefined` |
| `text.dfy` | `Text` | JavaScript white space and `trim`, ASCII case folding, substring search, SQL `LIKE` |
| `catalog.dfy` | `Catalog` | `database-helper.js`: the three tables, the queries (filter, inner join, `ORDER BY … DESC`), and the database object with its `AUTOINCREMENT` insert |
| `preferences.dfy` | `Preferences` | the agent's `analyzeUserPreferences` (a loop, proved against a function) and `summarizePreferences` |
| `dialogue.dfy` | `Dialogue` | one turn of the conversation as pure functions of a `Session` value, then the `Agent` class, whose methods update its fields and are each proved to do what the matching function says |
| `registry.dfy` | `Registry` | `chat-server.js`: the `activeSessions` map as the `ChatServer` class, with the start, message and end requests and the shutdown signal |
| `maprequest.dfy` | `MapRequest` | `detectMapRequest`, with its three regular expressions stated as the positions a backtracking matcher settles on, and the decision `handleSend` takes |

Things outside the program are inputs:

- **The text generator.** Each handler calls it at most once per turn. Its
  answer for the turn is a `Reply`: `Generated(text)` or `GenerationFailed`.
  Only which fallback text would be sent is modelled (`Canned`), not its
  wording.
- **The database's availability.** A flag `storeUp` covers one turn. When the
  store is down, every read throws and every write is refused.
- **The clock.** `Date.now()` enters as a `stamp` string for generated ids and
  as `now` for the `created_at` column.

### Behaviour kept as written

The model follows the code where it is surprising. Lemmas show each case:

- **A returning user gets no answer.** `startConversation` resets the step to
  `greeting`, and neither the greeting fallback nor the welcome-back message
  moves it on. `processResponse` returns nothing in `greeting`, and the server
  then fails reading `response.message`. So a returning user, or any user
  whose greeting generation failed, is told to continue but gets an error on
  the next message (`ReturningUserIsNotAnswered`,
  `GeneratorDownStaysInGreeting`, `FirstMessageAfterStart`).
- **A failed completion summary does not complete the profile.** It still
  reports `recommendation_ready`. The step stays `profile_building` with all
  six questions asked, and the next message retries the completion.
- **The profile keeps the oldest answer.** `getUserPreferences` returns rows
  newest first, and `analyzeUserPreferences` keeps the last row of each type,
  so the profile holds the oldest answer of each type
  (`StoredProfileKeepsOldest`). `summarizePreferences` uses the first row, the
  newest answer, so the two can disagree (`ProfileAndSummaryDisagree`).
- **Sentence answers find nothing.** Answers are stored verbatim, and the
  cuisine answer becomes the `LIKE` pattern. An answer longer than every
  stored cuisine type selects no restaurant (`LongCuisineAnswerFindsNothing`).
- **A failed read in a follow-up is reported as a rephrase request.**
  `handleFollowUpWithClaude` reads the store outside its `try`. A failed read
  escapes to `processResponse`, which answers with the rephrase message and
  the current step.

## Model

| member | source | states |
|---|---|---|
| `Text.Trim` | frontend/yourfoodie/screen/ChatScreen.js:150 | the trimmed text is the slice of the input left after removing only white space from both ends, with no white space left at either end |
| `Text.TrimIsOnlyTrim` | frontend/yourfoodie/screen/ChatScreen.js:150 | any slice that removes only white space from both ends and leaves none at either end is the trimmed text |
| `Text.TrimUnique` | frontend/yourfoodie/screen/ChatScreen.js:150 | two texts that both trim the same input in that sense are equal |
| `Text.TrimEmptyIff` | frontend/yourfoodie/screen/ChatScreen.js:150 | `!message.trim()` holds exactly when every character is white space |
| `Text.LikeContainsFolded` | database-helper.js:28-30 | `cuisine_type LIKE '%c%'` holds exactly when `c` occurs in the column ignoring ASCII case, for a `c` without wildcards |
| `Text.ContainsLowerIffFolded` | frontend/yourfoodie/screen/ChatScreen.js:200-202 | `lowerText.includes(keyword)` holds exactly when the keyword occurs in the text ignoring ASCII case |
| `Catalog.SortDescCorrect` | database-helper.js:15 | `ORDER BY … DESC` returns a permutation of its rows in descending key order |
| `Catalog.FilterSortCommute` | database-helper.js:80-91 | filtering rows after sorting them equals sorting the filtered rows |
| `Catalog.GetAllRestaurants` | database-helper.js:11-21 | all restaurants, the same multiset, best rated first |
| `Catalog.GetRestaurantsByCuisine` | database-helper.js:24-35 | best rated first, and a restaurant is returned exactly when it is in the table and its cuisine type is `LIKE '%c%'` |
| `Catalog.GetRestaurantsByPriceRange` | database-helper.js:80-91 | best rated first, and a restaurant is returned exactly when it is in the table with that price range |
| `Catalog.Join` | database-helper.js:47-48 | a row exists exactly for each pair of an event and a restaurant whose id is the event's `restaurant_id` |
| `Catalog.JoinOneCount` | database-helper.js:47-48 | one event gives a row once per restaurant row producing it, and never gives a row of another event |
| `Catalog.JoinCount` | database-helper.js:47-48 | the join holds a row as many times as its event occurs, multiplied by the restaurant rows that produce it |
| `Catalog.FilterCount` | database-helper.js:28-30 | a `WHERE` keeps every copy of a row that satisfies it and no copy of one that does not |
| `Catalog.GetActiveEvents` | database-helper.js:38-56 | highest discount first, and a listing is returned exactly when it joins an active event with its restaurant |
| `Catalog.GetEventsByType` | database-helper.js:58-77 | highest discount first, and a listing is returned exactly when it joins an active event of the requested type with its restaurant |
| `Catalog.EventsByTypeRefinesActive` | database-helper.js:58-77 | the events of a type are exactly the active events filtered to that type, in the same order |
| `Catalog.GetUserPreferences` | database-helper.js:107-118 | newest first, and a row is returned exactly when it belongs to the user |
| `Catalog.CuisineQueryCount` | database-helper.js:24-35 | the cuisine query returns a matching row as many times as the table holds it, and no other row |
| `Catalog.PriceQueryCount` | database-helper.js:80-91 | the price query returns a row of that price range as many times as the table holds it, and no other row |
| `Catalog.ActiveEventsCount` | database-helper.js:38-56 | a listing occurs once per copy of its event, if active, times the restaurant rows that give it; never for an inactive event |
| `Catalog.EventsByTypeCount` | database-helper.js:58-77 | the same count for the active events of the requested type, and none for any other event |
| `Catalog.UserPreferencesCount` | database-helper.js:107-118 | the user's rows are returned as many times as the table holds them, and no other row |
| `Catalog.RestaurantDatabase.SaveUserPreference` | database-helper.js:94-104 | appends one row with a fresh id, returns that id, and leaves the other tables as they were |
| `Preferences.LastValueFound` | popup-claude-agent.js:438-452 | a value found for a type is that of the last row of that type |
| `Preferences.LastValueNone` | popup-claude-agent.js:438-452 | no value is found for a type exactly when no row has that type |
| `Preferences.AnalyzeUserPreferences` | popup-claude-agent.js:438-452 | the loop's profile holds, for each of the four known types, the value of its last row, and no value when there is none |
| `Preferences.StoredProfileKeepsOldest` | popup-claude-agent.js:296-297 | on rows read from the store, the profile's value belongs to a row with the smallest `created_at` of its type |
| `Preferences.ProfileAndSummaryDisagree` | popup-claude-agent.js:454-463 | for one user with an older Mexican and a newer Italian answer, the profile says Mexican and the summary's first cuisine is Italian |
| `Preferences.FirstValueSpec` | popup-claude-agent.js:455-456 | the first value of a type is that of the first row of that type, or absent exactly when no row has it |
| `Preferences.ValuesOfHead` | popup-claude-agent.js:455-456 | the filtered values are empty exactly when no first value exists, and otherwise start with it |
| `Preferences.SummarizePreferences` | popup-claude-agent.js:454-463 | the phrase is never empty: it is the first cuisine with the first budget, the cuisine alone, the budget with " dining", or "great food" |
| `Dialogue.Greet` | popup-claude-agent.js:43-94 | reports `profile_building` and the cuisine question; a generated greeting moves the step to `profile_building` and is appended to the history as the assistant's turn, with nothing else changed; a failed generation sends the greeting fallback and changes nothing |
| `Dialogue.WelcomeBack` | popup-claude-agent.js:97-137 | reports `recommendation_ready` with the resume options; the fallback carries the summary of the stored rows |
| `Dialogue.ChosenId` | popup-claude-agent.js:25 | a missing or empty user id is replaced by the generated one, and any other id is kept |
| `Dialogue.Start` | popup-claude-agent.js:24-40 | sets the user; the step becomes `profile_building` exactly when the user is new and the greeting is generated, and stays `greeting` otherwise; a returning user gets the welcome back over the stored rows and no history; a new user is asked the cuisine question and only a generated greeting enters the history; the answers are untouched |
| `Dialogue.FallbackFor` | popup-claude-agent.js:228-241 | the generic fallback is used exactly for a question missing from the fallback table |
| `Dialogue.Completion` | popup-claude-agent.js:246-290 | always reports `recommendation_ready` with the ready options, but moves there only when the summary is generated |
| `Dialogue.ProfileTurn` | popup-claude-agent.js:160-243 | records the answer under the next flow question and asks to store it when the store is up; before the last question the step stays, the history gains exactly the user's turn and, only when generated, the assistant's, and the reply asks the following flow question with the generated text or that question's fallback; the last answer runs the completion on the recorded state; with six answers it only completes; the generic fallback never appears |
| `Dialogue.RecommendationTurn` | popup-claude-agent.js:293-379 | with the store up and the generation done, moves to `recommendations_shown` and returns the profile's candidates and the active events; otherwise changes nothing and reports `recommendation_ready` |
| `Dialogue.FollowUpTurn` | popup-claude-agent.js:382-427 | answers, with generated or canned text, exactly when the store reads succeed |
| `Dialogue.Respond` | popup-claude-agent.js:140-157 | returns nothing exactly in `greeting`; `greeting` and `recommendations_shown` leave the state as it is; the reported step differs from the new one exactly when the completion fails; questions and history only grow, by at most one question |
| `Dialogue.RespondKeepsInv` | popup-claude-agent.js:160-191 | each turn keeps the invariant: the questions asked are a prefix of the flow, each has an answer, and a recommendation step is reached only with all six asked |
| `Dialogue.StartKeepsInv` | popup-claude-agent.js:24-40 | starting, or starting again, keeps the invariant |
| `Dialogue.RecommendationsShownIsFinal` | popup-claude-agent.js:146-147 | once recommendations are shown, no sequence of messages changes the state |
| `Dialogue.ReplayProfileAnswers` | popup-claude-agent.js:171-187 | fewer answers than remaining questions keep `profile_building` and record each answer under the next flow question in order |
| `Dialogue.SixAnswersReachReady` | popup-claude-agent.js:162-191 | six answers from a fresh profile, with every generation succeeding, ask the six questions in order, record each answer under its type, and reach `recommendation_ready` |
| `Dialogue.GeneratorDownStaysInGreeting` | popup-claude-agent.js:85-92 | with the generator always failing, the conversation never leaves `greeting` and ignores every message |
| `Dialogue.ReturningUserIsNotAnswered` | popup-claude-agent.js:30-32 | a returning user is told `recommendation_ready`, but the step stays `greeting` and the next message gets no response |
| `Dialogue.CandidatesMatchProfile` | popup-claude-agent.js:300-310 | the candidates are best rated first and are exactly the restaurants matching the set cuisine by `LIKE` and the set budget exactly, each as many times as the table holds it |
| `Dialogue.BudgetOnlyIsPriceQuery` | popup-claude-agent.js:300-310 | with only a budget set, the candidates equal the price-range query |
| `Dialogue.LongCuisineAnswerFindsNothing` | popup-claude-agent.js:301-302 | a cuisine answer longer than every stored cuisine type selects no restaurant |
| `Dialogue.Agent.StartConversation` | popup-claude-agent.js:24-40 | the new fields are those of `Start`, read against the store's current rows, and the response is the one `Start` returns |
| `Dialogue.Agent.GenerateGreetingMessage` | popup-claude-agent.js:43-94 | the new fields and the response are those of `Greet` |
| `Dialogue.Agent.ProcessResponse` | popup-claude-agent.js:140-157 | the new fields and the response are those of `Respond`, and the store gains exactly the row the turn saves |
| `Dialogue.Agent.HandleProfileBuilding` | popup-claude-agent.js:160-243 | the new fields and the response are those of `ProfileTurn`, and the store gains the answer's row when it is up |
| `Dialogue.Agent.RecordAnswer` | popup-claude-agent.js:179-187 | appends the question, sets its answer, stores it when the store is up, and appends the user's turn |
| `Dialogue.Agent.SaveUserPreference` | popup-claude-agent.js:430-436 | stores one row under the current user when the store is up; a refused write changes nothing |
| `Dialogue.Agent.CompleteProfile` | popup-claude-agent.js:246-290 | the new fields and the response are those of `Completion` |
| `Dialogue.Agent.HandleRecommendation` | popup-claude-agent.js:293-379 | the new fields and the response are those of `RecommendationTurn`, computed with the profile loop |
| `Dialogue.Agent.Close` | popup-claude-agent.js:465-469 | the agent is closed and its conversation state is unchanged |
| `Registry.MessageOutcome` | backendtemp/chat-server.js:68-85 | the request fails exactly when the agent returns nothing; otherwise the reply carries the response's message, flag, step, options, restaurants and events |
| `Registry.FirstMessageAfterStart` | backendtemp/chat-server.js:27-85 | for a new user, the first message fails exactly when the greeting was not generated |
| `Registry.ChatServer.StartSession` | backendtemp/chat-server.js:17-44 | registers a fresh agent under the user id or a generated id, replacing any earlier one without closing it, starts it, and replies with its greeting |
| `Registry.ChatServer.SendMessage` | backendtemp/chat-server.js:47-86 | a missing session id or message is a bad request and an unknown id is not found, both changing nothing; otherwise that session's agent takes the turn, the store gains only the turn's saved row and its id counter advances by that row, and no other session changes; the error replies leave the store and its id counter as they were |
| `Registry.ChatServer.EndSession` | backendtemp/chat-server.js:129-147 | closes and removes a registered session; an unknown id changes nothing |
| `Registry.ChatServer.Shutdown` | backendtemp/chat-server.js:161-169 | closes every registered agent and empties the registry |
| `MapRequest.SomeKeyword` | frontend/yourfoodie/screen/ChatScreen.js:199-202 | true exactly when one of the keywords occurs in the lower-cased text |
| `MapRequest.LeftmostFinds` | frontend/yourfoodie/screen/ChatScreen.js:212 | a match returned by a regular expression is the one at the first start position that matches |
| `MapRequest.LeftmostNone` | frontend/yourfoodie/screen/ChatScreen.js:212 | a regular expression finds nothing exactly when no start position matches |
| `MapRequest.Pattern1AtSpec` | frontend/yourfoodie/screen/ChatScreen.js:206 | at a start position, pattern 1 finds a group exactly when some match exists (a keyword, white space, a non-empty group ending at white space or the end), and the group it finds is that of the match with the latest group start |
| `MapRequest.Pattern2End` | frontend/yourfoodie/screen/ChatScreen.js:207 | the group ends at the first position from which the tail ` on/in [the] map` follows without crossing a line terminator, and nothing is found exactly when no such position exists |
| `MapRequest.Pattern2AtSpec` | frontend/yourfoodie/screen/ChatScreen.js:207 | at a start position, pattern 2 finds a group exactly when some group end admits the tail, and then the group ends at the shortest such end |
| `MapRequest.Pattern3At` | frontend/yourfoodie/screen/ChatScreen.js:208 | a pattern-3 group is a non-empty slice of the text without line terminators |
| `MapRequest.Pattern3AtSpec` | frontend/yourfoodie/screen/ChatScreen.js:208 | at a start position, pattern 3 finds a group exactly when some match exists, and the group is the rest of the line from the latest group start |
| `MapRequest.KeywordFromSpec` | frontend/yourfoodie/screen/ChatScreen.js:218 | the alternation removes the first keyword in its list that matches as a whole word, and removes nothing exactly when none does |
| `MapRequest.StripCopiesUpTo` | frontend/yourfoodie/screen/ChatScreen.js:218 | over positions where no alternative matches as a whole word, the replace copies the text unchanged |
| `MapRequest.StripDropsKeyword` | frontend/yourfoodie/screen/ChatScreen.js:218 | a whole-word keyword is removed and the replace resumes right after it |
| `MapRequest.DetectByPattern1` | frontend/yourfoodie/screen/ChatScreen.js:204-213 | with a keyword, the leftmost pattern-1 match decides the query: its group, trimmed |
| `MapRequest.DetectByPattern2` | frontend/yourfoodie/screen/ChatScreen.js:204-213 | with a keyword and no pattern-1 match, the leftmost pattern-2 match with its shortest group decides the query |
| `MapRequest.DetectByPattern3` | frontend/yourfoodie/screen/ChatScreen.js:204-213 | with a keyword and no match of patterns 1 and 2, the leftmost pattern-3 match decides the query |
| `MapRequest.DetectByFallback` | frontend/yourfoodie/screen/ChatScreen.js:204-218 | with a keyword and no pattern matching anywhere, the query is the text with its whole-word keywords removed, trimmed |
| `MapRequest.DetectMapRequest` | frontend/yourfoodie/screen/ChatScreen.js:198-222 | `null` exactly when no keyword occurs; otherwise a query with no white space at either end |
| `MapRequest.NoKeywordIffNull` | frontend/yourfoodie/screen/ChatScreen.js:198-222 | `null` exactly when none of the six keywords occurs in the text ignoring ASCII case |
| `MapRequest.ShowMeExample` | frontend/yourfoodie/screen/ChatScreen.js:206 | "Show me Tacos!" gives the query "Tacos!", keeping its case and punctuation |
| `MapRequest.BareKeywordGoesToAgent` | frontend/yourfoodie/screen/ChatScreen.js:168-172 | "map" alone is a map request with an empty query, so the message goes to the agent instead of opening the map |
| `MapRequest.HandleSend` | frontend/yourfoodie/screen/ChatScreen.js:149-181 | a blank message is ignored; the map opens exactly when the message is not blank and `detectMapRequest` gives a non-empty query, with that query and the message; anything else goes to the agent unchanged |

## Left out

- Prompts, model parameters and the text of messages are left out. Only
  which canned fallback is sent is modelled, and the generator is an input.
- I/O, `async`/`await`, concurrency between requests, and the HTTP status
  codes are left out. The three error replies of the message request are the
  constructors `BadRequest`, `NotFound` and `Failed`.
- `GET /api/restaurants`, `GET /api/events`, `/health` and `app.listen` are
  left out. They only call the modelled queries or touch the network.
- `Dialogue.Session` does not keep the flags `profileBuilding` and
  `profileComplete`. They are set in the constructor and never read or
  written again.
- Each agent opens its own connection to the same database file. The model
  gives all agents one shared `RestaurantDatabase`.
- Closing the database is the agent's `closed` flag. What a closed
  connection would do on later use is not modelled.
- `Date.now()` is not called. The time enters as the integer `now` for the
  `created_at` column and as the `stamp` string for generated ids.
- Ratings are modelled as integers. The source stores a `REAL`, and only the
  ordering matters here.
- NULL columns are not modelled, and every column holds a value.
- The columns `image_url` and `created_at` of `restaurants` and
  `description` and `created_at` of `events` are not modelled. No query
  filters or orders by them, and `SELECT *` only passes them through to the
  `restaurants` and `events` lists of a reply.
- A successful generation is assumed to carry text. The source sets the new
  step before it reads `content[0].text` in the greeting, the profile
  completion and the recommendation handler. A reply with an empty `content`
  array would throw there after the step has moved: the greeting would stay
  in `profile_building` with the canned text and no assistant turn, and the
  recommendation would stay in `recommendations_shown` while reporting
  `recommendation_ready` without lists. `Dialogue.Reply` has no such outcome,
  so this path is not covered.
- `Catalog.GetAllRestaurants` and the other sorted queries order equal keys
  as a stable insertion sort does, keeping table order. SQLite leaves the
  order of ties unspecified. The query contracts state the descending order,
  the membership and the multiplicity of each row, which hold for any order
  of ties. Three lemmas state exact equality of sequences and so hold for
  this tie order only: `Catalog.FilterSortCommute`,
  `Catalog.EventsByTypeRefinesActive` and `Dialogue.BudgetOnlyIsPriceQuery`.
- `Dialogue.Replay` runs every turn against fixed tables and with one
  `storeUp` flag for all turns. Rows saved during the replayed turns are not
  read back, and nothing in those lemmas reads them. A store that fails in
  some turns only is not covered by the replay lemmas.
- `MapRequest.HasMapKeyword` folds case for ASCII only. JavaScript's
  `toLowerCase` folds all of Unicode. One non-ASCII character lowers to a
  keyword letter: U+0130 (capital I with dot above) lowers to `i` followed
  by the combining dot U+0307. No keyword ends in `i`, so every keyword
  that could use that `i` would also need the dot to be its next letter,
  and none matches. The keyword test is therefore the same.
- Dafny strings hold Unicode scalar values, while JavaScript strings hold
  UTF-16 code units. This matters only for positions inside surrogate pairs,
  which the patterns never match.
- The scripted command-line client and the database seeding, repair and test
  scripts are not part of this model.
