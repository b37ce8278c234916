# Butterfly quiz — a Dafny model

A model of the logic at the heart of the butterfly identification quiz. The
system has a FastAPI backend over a Mongo collection of butterfly records,
plus a React Native front end with a game screen, a results screen and two
admin screens. The model covers these parts:

- **The backend (`backend/server.py`):**
  - the `Butterfly` record and its defaults;
  - `GET /butterflies`;
  - `GET /quiz/question`: one correct record, up to four distractors, and the shuffled options;
  - `POST /init-butterflies`: the count guard and the 30-record seed insert.
- **The game screen (`frontend/app/game.tsx`):** a state record with one pure
  transition per event:
  - answer;
  - timer tick;
  - timeout;
  - the 5-second reveal;
  - next round;
  - question loaded;
  - question load failed.
- **The admin edit screen (`frontend/app/admin/edit.tsx`):**
  - the mount effect that loads or resets the form;
  - `validateForm` with its fixed check order;
  - the trimmed payload and the create/update choice in `handleSave`.
- **The admin list screen (`frontend/app/admin/index.tsx`):**
  - the case-insensitive search filter;
  - the difficulty label and colour;
  - the count line.
- **The results screen (`frontend/app/results.tsx`):**
  - how the route parameters default;
  - the rounded percentage;
  - the message ladder;
  - the badge;
  - the wrong count.

The JavaScript built-ins these screens rely on are modelled on their own:

- `trim`, `startsWith`, `includes` and `toLowerCase` (module `JsString`);
- `parseInt` and `String(n)` (module `JsNumber`).

Randomness becomes an explicit argument (module `Draws`). A call to
`random.choice` takes one arbitrary natural number; a call to `random.sample`
or `random.shuffle` takes a sequence of them. Each number is reduced modulo
the count of remaining candidates. So every argument is a valid draw, and
`Draws.DrawComplete` shows that every possible draw is produced by some
argument. The properties below are therefore proved for every outcome of the
random source.

Modules, one per file:

- `Wrappers`: `Option`, `Result`, `Min`.
- `JsString`, `JsNumber`: the JavaScript built-ins.
- `Draws`: the random draws.
- `Catalog`: the store documents, the API record and the listing endpoint.
- `Quiz`: the question endpoint.
- `Seed`: the initialization endpoint.
- `Game`: the game screen.
- `AdminEdit`: the edit screen.
- `Difficulty`: the three levels shared by both badges.
- `AdminList`: the list screen.
- `Results`: the results screen.

## Model

| member | source | states |
|---|---|---|
| Catalog.FromDoc | backend/server.py:28-33 | A document converts exactly when it has the three required text fields. The id is the ObjectId as lowercase hex. The difficulty is the stored one, or 1 when absent. The names and URL are copied unchanged. |
| Catalog.IdTextInjective | backend/server.py:79-80 | Two ObjectIds render to the same id string exactly when they are the same id. |
| Catalog.FromDocsKeepsDistinct | backend/server.py:56 | For well-formed documents, the converted records have pairwise distinct ids exactly when the documents do. |
| Catalog.Find | backend/server.py:62 | `to_list(100)` returns the first `min(100, n)` documents of the store, in store order. |
| Catalog.GetButterflies | backend/server.py:52-56 | The listing succeeds exactly when the first page is well-formed. It then returns one record per document of that page, record i being the API form of document i, and the ids are distinct when the store's ids are unique. |
| Draws.DrawFromSource | backend/server.py:72 | A draw without replacement takes a sub-multiset of its source. Drawing everything takes a permutation. |
| Draws.Shuffle | backend/server.py:76 | The shuffled options are a permutation of their input. |
| Draws.DrawComplete | backend/server.py:68-76 | Every sequence drawn without replacement from the candidates is produced by some random argument. |
| Draws.ShuffleComplete | backend/server.py:76 | Every permutation of the options is produced by some random argument. |
| Quiz.WithoutId | backend/server.py:71 | A document is a candidate distractor exactly when it is on the page and its id differs from the correct one's. |
| Quiz.WithoutPresentId | backend/server.py:71 | With unique ids, removing the correct document's id removes exactly one document. |
| Quiz.Select | backend/server.py:68-76 | The correct document is on the page. There are `min(4, others)` distractors, drawn without replacement from the documents with another id. The options are a permutation of the correct document plus the distractors. |
| Quiz.SelectionShape | backend/server.py:71-76 | On a page of at least 5 documents with unique ids, there are 5 options. Their ids are pairwise distinct, all of them are on the page, and the correct document is among them. |
| Quiz.GetQuizQuestion | backend/server.py:58-85 | The error "not enough butterflies" occurs exactly when the store holds fewer than 5 documents. A first page of at least 5 well-formed documents always yields a question. The correct answer is the API form of a document among the first 100. |
| Quiz.QuestionShape | backend/server.py:71-80 | On a store with unique ids, every question has 5 options with pairwise distinct ids. The correct answer is one of them, and its id occurs exactly once among them. |
| Quiz.QuestionFromFirstPage | backend/server.py:62-80 | Every option is the API form of one of the first 100 documents. |
| Seed.SeedListValid | backend/server.py:96-127 | The seed list has 30 entries. Each has non-empty names and URL and a difficulty within 1..3. |
| Seed.Initialize | backend/server.py:87-130 | A non-empty store is left as it was, and its size is reported. An empty store receives the 30 seed documents in order, each under its fresh id. |
| Seed.InitializeTwice | backend/server.py:91-93 | A second initialization never changes the store and reports its size, which is 30 after seeding an empty store. |
| Seed.SeedMessage | backend/server.py:130 | Seeding reports "Successfully initialized 30 butterflies". |
| Seed.SeededCatalog | backend/server.py:96-129 | With distinct fresh ids, seeding an empty store yields 30 well-formed documents with unique ids. |
| Seed.SeededListing | backend/server.py:52-56 | After seeding, the listing returns 30 records with non-empty names and URL and pairwise distinct ids. |
| Seed.SeededQuiz | backend/server.py:64-76 | After seeding, every question request succeeds with 5 options. |
| Game.HandleTimeout | frontend/app/game.tsx:92-99 | A timeout marks the round answered and wrong and shows feedback. Every other part of the state is unchanged. |
| Game.HandleAnswer | frontend/app/game.tsx:101-118 | An answer is ignored once the round is answered or while no question is loaded. Otherwise the round becomes answered and the choice is recorded. The answer is correct exactly when its id equals the correct answer's id. The score rises by one exactly for a correct answer. Nothing besides the answered flag, the selection, the correctness flag, the score and the feedback flag changes. |
| Game.HandleTick | frontend/app/game.tsx:52-60 | A tick only acts while options are shown and the round is unanswered. It counts down by one, and at 1 or below it times the round out and shows 0. |
| Game.HandleReveal | frontend/app/game.tsx:49-84 | The 5-second timeout shows the options. The timer effect then restarts the countdown at 10 when the round is unanswered. Nothing besides the options flag and the countdown changes. |
| Game.HandleNext | frontend/app/game.tsx:120-131 | From round 10 on, the game ends with the current score and total 10. Before that, the round advances by exactly one, loading starts and a new question is requested, and nothing else changes; in particular the game stays unfinished. |
| Game.HandleLoaded | frontend/app/game.tsx:71-90 | A loaded question is installed and loading ends. The selection, the feedback, the answered flag and the options flag are cleared. Nothing else changes: score, round, countdown, correctness flag and finished state keep their values. |
| Game.HandleLoadFailed | frontend/app/game.tsx:85-89 | A failed request only ends the loading state. |
| Game.Reachable | frontend/app/game.tsx:35-131 | In every reachable state the round lies within 1..10 and the countdown within 0..10. The score plus the scoring chances still open never exceeds the round, so the score never exceeds the round. A game is finished only at round 10, and it reports total 10 and a score of at most 10. |
| Game.AnswerOnce | frontend/app/game.tsx:102 | A second answer in the same round changes nothing, so a round scores at most once. |
| AdminEdit.ApplyParams | frontend/app/admin/edit.tsx:43-67 | Opening in add mode resets every field: empty strings, difficulty 1, no id, not in edit mode. Opening a parsed record loads its fields in edit mode. A parameter that does not parse leaves the form as it was. |
| AdminEdit.ValidateForm | frontend/app/admin/edit.tsx:69-87 | Validation passes exactly when no check fails. These are the three non-blank checks on the trimmed fields and the scheme check on the untrimmed URL. A reported failure is one that holds. |
| AdminEdit.ValidationOrder | frontend/app/admin/edit.tsx:69-87 | The reported failure is the first in the fixed order: every check ranked before it passes. |
| AdminEdit.ValidateFormAccepts | frontend/app/admin/edit.tsx:70-86 | Non-blank names and a URL starting with `http://` or `https://` pass validation. |
| AdminEdit.OnlySchemeFails | frontend/app/admin/edit.tsx:82-85 | When only the scheme check fails, the save is refused with the scheme alert. |
| AdminEdit.HandleSave | frontend/app/admin/edit.tsx:89-114 | Nothing is sent when validation fails, and the error is the one validation reports. Otherwise the payload is the trimmed form. An update to the record's id is sent exactly when editing a record with a non-empty id, and a create otherwise. |
| AdminEdit.SavedPayloadIsClean | frontend/app/admin/edit.tsx:96-101 | An accepted payload has no id. Its names are non-empty and carry no surrounding white space. Its URL is non-empty and keeps its `http://` or `https://` prefix. |
| AdminEdit.LeadingSpaceRejected | frontend/app/admin/edit.tsx:82-99 | A URL typed with a leading space is refused by the scheme check, although its trimmed form would start with `https://`. |
| AdminEdit.EmptyAddFormRejected | frontend/app/admin/edit.tsx:57-73 | A freshly reset add form is refused, with the common name reported first. |
| AdminEdit.PayloadOfLoaded | frontend/app/admin/edit.tsx:46-53 | Loading an already-trimmed record and building the payload gives the record back without its id. |
| AdminEdit.EditRoundTrip | frontend/app/admin/edit.tsx:43-113 | Opening a trimmed, valid stored record and saving it unchanged sends an update of that id with exactly its fields. |
| JsString.TrimEmptyIffBlank | frontend/app/admin/edit.tsx:70 | `trim()` gives the empty string exactly when every character is white space. |
| JsString.IncludesIffOccurs | frontend/app/admin/index.tsx:49-50 | `includes` finds a pattern exactly when it occurs at some position. |
| JsNumber.ParseIntRoundTrip | frontend/app/results.tsx:17-19 | `parseInt` of `String(n)` gives `n` back. |
| AdminList.Keep | frontend/app/admin/index.tsx:47-51 | A record is kept exactly when it is in the list and its lowercased common or Latin name contains the lowercased query. |
| AdminList.KeepCounts | frontend/app/admin/index.tsx:47-51 | Every copy of a matching record is kept and every copy of any other record is dropped, so the count line counts repeated records. |
| AdminList.MatchesIffSpec | frontend/app/admin/index.tsx:49-50 | The match test holds exactly when the lowercased query occurs at some position of a lowercased name. |
| AdminList.FilterButterflies | frontend/app/admin/index.tsx:43-54 | A blank query shows the whole list. Any other query shows exactly the matching records, each as many times as it occurs in the list. |
| AdminList.FilterIsSubsequence | frontend/app/admin/index.tsx:47-52 | The filtered list is an order-preserving subsequence of the loaded list. |
| AdminList.KeepAllIffAllMatch | frontend/app/admin/index.tsx:47-51 | Filtering keeps the whole list exactly when every record matches. |
| AdminList.FilterIdempotent | frontend/app/admin/index.tsx:47-52 | Filtering the filtered list again with the same query changes nothing. |
| AdminList.SpaceInQueryMatchesNothing | frontend/app/admin/index.tsx:47-50 | The query is not trimmed: a query holding a space matches no record whose names hold none. |
| AdminList.Label | frontend/app/admin/index.tsx:105-116 | 1, 2 and 3 show their level's name (Easy, Medium, Hard). Every other integer shows "Unknown". |
| AdminList.Color | frontend/app/admin/index.tsx:118-129 | 1, 2 and 3 show their level's colour (green, orange, red). Every other integer shows grey. |
| AdminList.LabelColorAgree | frontend/app/admin/index.tsx:105-129 | Two difficulties share a label exactly when they denote the same level or are both unknown, and likewise for the colour. |
| AdminList.CountTextReadsBack | frontend/app/admin/index.tsx:168-170 | The count line uses the singular noun exactly when one record is shown, and its number reads back as the count. |
| Difficulty.LevelOf | frontend/app/admin/index.tsx:105-116 | An integer denotes a level exactly when it lies within 1..3, and that level's integer is the input. |
| Difficulty.NamesAndColorsDistinct | frontend/app/admin/index.tsx:105-129 | Distinct levels have distinct names and distinct colours. |
| Results.OrDefault | frontend/app/results.tsx:17-19 | A parameter yields its parsed value unless it is missing, does not parse, or parses to 0. In those cases the default is used. |
| Results.OrDefaultOfDecimal | frontend/app/results.tsx:17-19 | A number written out as text reads back as itself, except that 0 falls back to the default. |
| Results.Percentage | frontend/app/results.tsx:20 | The percentage is the exact `score / total * 100` rounded half up: it is within one half below and strictly less than one half above that ratio. |
| Results.PercentageUnique | frontend/app/results.tsx:20 | For a positive total, the rounded value is the only integer with that property. |
| Results.PercentageOfTen | frontend/app/results.tsx:20 | Out of 10, the percentage is exactly ten times the score. |
| Results.TierMonotone | frontend/app/results.tsx:22-27 | A higher percentage never earns a lesser message. |
| Results.TierOfTenQuestions | frontend/app/results.tsx:22-27 | Out of 10: 9 or 10 correct is Outstanding, 7 or 8 is Great Job, 5 or 6 is Good Effort, and fewer is Keep Practicing. |
| Results.MessagesDistinct | frontend/app/results.tsx:22-27 | The four messages are pairwise different. |
| Results.BadgeLevel | frontend/app/results.tsx:29-45 | 1, 2 and 3 show their own level, and every other integer shows Easy. |
| Results.BadgeAgreesWithList | frontend/app/results.tsx:29-45 | On 1..3 the results badge shows the same name and colour as the admin list. On any other integer it shows Easy in green, where the list shows Unknown in grey. |
| Results.Summarize | frontend/app/results.tsx:17-89 | Score, total and badge come from the parameters with defaults 0, 10 and 1. The percentage is the rounded ratio of score over total, and the divisor is never 0. Correct plus wrong equals the total. The message is the one for the percentage. |
| Results.FinishedGameSummary | frontend/app/game.tsx:123-126 | After any run of the game, the results screen shows the game's score out of 10. The percentage is ten times the score, the badge is Easy, and the wrong count lies within 0..10. |

## Left out

- **Store and framework plumbing:** the Mongo client, the FastAPI router, CORS,
  logging and the shutdown hook are I/O. The store is a sequence of documents,
  and store-assigned ObjectIds are parameters.
- **Admin create, update and delete endpoints:** the admin screens call them,
  but `backend/server.py` defines no handler for them. The model stops at the
  request the edit screen sends.
- **`backend_test.py`:** an HTTP smoke-test script. It is not part of this
  model; the quiz and seed properties it checks are stated as lemmas.
- **`frontend/app/index.tsx`:** the home screen is not part of this model. It
  only fires the initialization request and renders.
- **Uniformity:** the distributions of `random.choice`, `random.sample` and
  `random.shuffle` are not expressible. Draws are arbitrary, and every
  outcome is reachable.
- **Timing:** the intervals and timeouts of the game screen are events (`Tick`,
  `Reveal`). Their spacing in time is not modelled, nor is React rendering,
  navigation, or the stale closure of `setScore(score + 1)`. State updates
  apply one after another.
- **Response serialization:** the JSON field names the API emits are not
  modelled. The record carries its id as `Catalog.Butterfly.id`, while the
  source declares the field with the alias `_id`.
- **The initialization race:** two concurrent initialization requests can both
  see an empty store. Concurrency is not modelled.
- Seed.Initialize: requires one fresh id per seed entry, standing for the ids `insert_many` assigns.
- Seed.SeedListValid: does not state that every seed URL starts with `https://`. This is true of the 30 literals but too costly to unfold in the proof.
- Results.Percentage: computes `Math.round(score / total * 100)` with exact rational arithmetic rather than IEEE doubles. A quotient that floating point lands just below a half can round differently in the running program.
- JsString.ToLower: lowercases ASCII letters only, where `toLowerCase` follows full Unicode case mapping.
- JsNumber.ParseInt: returns an exact integer, where `parseInt` loses precision beyond 2^53. `None` stands for `NaN`.
- Game.HandleLoaded: requires a request in flight. `Game.Step` ignores a response that arrives with none.
- Game.Step: an option press or a Next press reaches its handler only while the question, not the spinner, is shown and the button is rendered (frontend/app/game.tsx:133-139, 173, 203-213). Tick and Reveal events may arrive in any order, so `Game.Reachable` ranges over more event sequences than the screen can produce.
- The "Validation Error" and "Success" alerts, and the error alert after a failed request, are not modelled beyond which `AdminEdit.FormError` is reported.
