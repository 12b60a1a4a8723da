# DUALDREAD game core in Dafny

DUALDREAD is a cooperative horror text adventure. A human player and an AI
companion ("Gemini") each pick one of three offered actions per turn. A
narration service tells the story, and an image service illustrates each scene.
This project models the deterministic logic around those services and proves
properties of it:

- **The page's game state** (`src/app/page.tsx`). The module defines the
  choice pool and `getDynamicChoices`, plus the `GameState` record that the
  handlers `initializeGame`, `handlePlayerChoice`, `handleError`,
  `handleRestartGame` and `handleGeminiStuck` update. The page is a class,
  `GamePage.DualDreadPage`, with one `gameState` field. Each `setGameState` is
  one assignment of an updated record, in the handler's order. Every handler
  is proved equal to a transition function on `GameState`. The invariant
  `Consistent` is proved to be kept by:
  - the player's turn;
  - the hint request;
  - the opening narration, on a game that has not ended (as at mount and
    after a restart's reset);
  - the restart.

  `handleError` alone is not proved to keep it: on an ended game it hands the
  turn back.
- **The narration flow** (`src/ai/flows/narrate-adventure.ts`). It clamps the
  input vitals before the model sees them, and sanitises the model's answer.
- **The companion's decision flow** (`src/ai/flows/interpret-choices.ts`). It
  falls back when the model gives no answer, and corrects an answer that names
  an option not on the list.
- **The scene-image flow** (`src/ai/flows/generate-scene-image-flow.ts`). It
  picks a horror tier from the turn count, and reports an error when no media
  URL comes back.
- **The visualisation panel's strings**
  (`src/components/game/SceneVisualization.tsx`). These are the image hint
  extracted from the scene text, the alt text and the shortened error notice.

Services are parameters:
- The page's two services, companion and narration, are function-typed
  parameters. A call gives the service's answer, or the message of the error
  it threw.
- Inside the flows, the narration model, the companion model and the image
  model are function-typed parameters. A call gives the model's answer
  (possibly none), or the message of the error it threw. An error passes
  through the flow unchanged.
- `InterpretChoicesFlow` also takes the companion model's answer directly as
  a value. `RunInterpretChoices` wraps it around the call.

So each request the code builds is part of the model, and so is each answer's
effect.

The JavaScript string operations in use are modelled in module `Text`:
`toLowerCase`, `includes`, `split(/\s+/)`, `filter`, `slice`, `join(" ")` and
`x || null`. Their observable edge cases are kept:
- `split(/\s+/)` yields an empty first piece when the text starts with
  whitespace.
- `\s` is the full JavaScript whitespace set.
- `||` treats the empty string as missing.

Modules, one per source file plus two shared ones:

| file | module | models |
|---|---|---|
| common.dfy | `Common` | `Option`, `Result` |
| text.dfy | `Text` | the JavaScript string and array operations used by the core |
| narrate_adventure.dfy | `NarrateAdventure` | narrate-adventure.ts |
| interpret_choices.dfy | `InterpretChoices` | interpret-choices.ts |
| scene_image.dfy | `SceneImage` | generate-scene-image-flow.ts |
| scene_visualization.dfy | `SceneVisualization` | SceneVisualization.tsx |
| game_page.dfy | `GamePage` | page.tsx |

## Model

| member | source | states |
|---|---|---|
| GamePage.GetDynamicChoices | src/app/page.tsx:62-69 | the three entries from index `turnCount*3` (mod 6) of the pool are the first half of the pool on even turn counts and the second half on odd ones; the scene and challenge are ignored |
| GamePage.BaseIndexMod | src/app/page.tsx:63-67 | `turnCount*3 mod 6` is 0 or 3 by parity, so the three indices never wrap inside one call |
| GamePage.DynamicChoicesFromPool | src/app/page.tsx:53-69 | every turn offers exactly three pairwise different entries, all from the pool |
| GamePage.DynamicChoicesPeriodic | src/app/page.tsx:62-69 | the choices depend only on the turn count: the same two turns later, different on the next turn |
| GamePage.GameOverTextMeansPhrase | src/app/page.tsx:194-195 | the game-over test holds exactly when the lower-cased narration contains "game over" at some index or the lower-cased challenge contains "you have perished" |
| GamePage.InitializedState | src/app/page.tsx:113-142 | opening narration: the error is cleared and the player gets the turn. On success the story is taken, the current turn's choices are offered and the counter advances by one; the player's choice, the companion's choice, reasoning and hint and the hint request are kept as they were. On failure only the message "Failed to initialize game narration: <error>" is set |
| GamePage.Restarted | src/app/page.tsx:229-235 | a restart ends in a running game on the player's turn, with both players' choices, the companion's reasoning and hint, and the hint request cleared. On success it is turn 1 with the first pool half offered and the narrator's story, scene and challenge. On failure it is turn 0, with no choices, no narration, the opening scene, an empty challenge and the message "Failed to initialize game narration: <error>" |
| GamePage.PlayerTurnIgnored | src/app/page.tsx:158 | a choice made after the end, or while the player is waiting, changes nothing |
| GamePage.PlayerTurnCounter | src/app/page.tsx:197-223 | the turn counter advances by exactly one when both services answer, and otherwise stays |
| GamePage.PlayerTurnFailure | src/app/page.tsx:161-223 | a failed service call shows "Failed to process turn: <error>", gives the turn back and forgets the player's choice. The story, choices, counter and game-over flag are unchanged. If the companion failed, its previous decision stays cleared |
| GamePage.PlayerTurnCompanionShown | src/app/page.tsx:179-185 | once the companion answers, its choice and reasoning are shown, an empty hint becomes none, and the stuck flag is cleared, even if narration then fails |
| GamePage.PlayerTurnCommitted | src/app/page.tsx:187-206 | a committed turn takes the new story and ends the game exactly on the game-over phrases. An ended game offers nothing and waits for no one. Otherwise the choices for the pre-increment turn count are offered and the player moves next |
| GamePage.GeminiStuck | src/app/page.tsx:237-239 | the hint request is set only on the player's turn of a running game; nothing else changes |
| GamePage.InitialStateConsistent | src/app/page.tsx:37-51 | the initial state satisfies the page invariant `Consistent` |
| GamePage.FailedTurnKeepsConsistent | src/app/page.tsx:217-223 | a turn that fails after being accepted keeps the invariant |
| GamePage.NarratedIsConsistent | src/app/page.tsx:197-206 | a committed narration always yields a state satisfying the invariant |
| GamePage.PlayerTurnKeepsConsistent | src/app/page.tsx:157-227 | `handlePlayerChoice` keeps the invariant. Offered choices are always the pool half of the last committed turn, an ended game offers none, and the player waits only before the opening narration |
| GamePage.InitializedKeepsConsistent | src/app/page.tsx:113-142 | the opening narration keeps the invariant when it runs on a game that has not ended |
| GamePage.GeminiStuckKeepsConsistent | src/app/page.tsx:237-239 | the hint request keeps the invariant |
| GamePage.OfferedChoicesFromPool | src/app/page.tsx:53-69 | a consistent state offers three choices: the first pool half after an odd counter, the second after an even one |
| GamePage.DualDreadPage.constructor | src/app/page.tsx:73 | the page starts in the initial state |
| GamePage.DualDreadPage.HandleError | src/app/page.tsx:81-84 | the state gets the message "<message>: <error>" and the player gets the turn |
| GamePage.DualDreadPage.InitializeGame | src/app/page.tsx:113-142 | the new state is the opening transition of the old one, and the invariant is kept |
| GamePage.DualDreadPage.HandlePlayerChoice | src/app/page.tsx:157-227 | the three record updates, with the two service calls between them, give the player-turn transition of the old state; both requests use the pre-turn scene and choices; the invariant is kept |
| GamePage.DualDreadPage.FailTurn | src/app/page.tsx:217-223 | the catch block: the error is shown, the turn is given back and the player's choice is forgotten |
| GamePage.DualDreadPage.HandleRestartGame | src/app/page.tsx:229-235 | the state becomes the restart transition and satisfies the invariant |
| GamePage.DualDreadPage.HandleGeminiStuck | src/app/page.tsx:237-239 | the new state is the hint-request transition, and the invariant is kept |
| NarrateAdventure.Clamp | src/ai/flows/narrate-adventure.ts:107-110 | `Math.max(lo, Math.min(v, hi))` lies in `[lo, hi]`, is `v` inside the range and the nearer bound outside it |
| NarrateAdventure.FloorAtZero | src/ai/flows/narrate-adventure.ts:118-119 | `Math.max(0, v)` is non-negative, `v` when `v >= 0` and 0 otherwise |
| NarrateAdventure.SafeInput | src/ai/flows/narrate-adventure.ts:104-111 | turn count at least 1 (exactly 1 for a smaller input), each health the input clamped to `[0, 2]` and each stamina the input clamped to `[0, 3]`; in-range values unchanged, every other field passed through |
| NarrateAdventure.SafeInputIdempotent | src/ai/flows/narrate-adventure.ts:104-111 | clamping the input twice is the same as once |
| NarrateAdventure.Sanitise | src/ai/flows/narrate-adventure.ts:118-134 | health floored at 0 (no upper bound), each stamina the answer clamped to `[0, 3]` (nearest bound when outside), game over forced when either floored health is 0, empty item names become none, a health-loss flag survives only when it is `true` and health really dropped below the unclamped input, story text passes through |
| NarrateAdventure.SanitiseKeepsSaneAnswer | src/ai/flows/narrate-adventure.ts:118-134 | an answer whose vitals are already sane is unchanged apart from the two health-loss flags |
| NarrateAdventure.SanitiseIdempotentOnVitals | src/ai/flows/narrate-adventure.ts:118-134 | sanitising twice gives the same vitals, items, game-over flag and text as once |
| NarrateAdventure.NarrateAdventureFlow | src/ai/flows/narrate-adventure.ts:103-135 | the model sees only the clamped input; an error thrown by the model call passes through; no answer fails with the fixed "story fades to black" message; any answer comes back sanitised with sane vitals |
| InterpretChoices.EntryOr | src/ai/flows/interpret-choices.ts:74-85 | the logical-or fallback on `choices[i]` is the entry when it exists and is non-empty, the fallback otherwise |
| InterpretChoices.InterpretChoicesFlow | src/ai/flows/interpret-choices.ts:69-90 | no answer: the drawn entry or "Stay put and observe.", with the fixed fallback reasoning. Valid answer: returned unchanged. Invalid answer: the first entry (or "Observe the surroundings."), with the correction note appended. With a non-empty list of non-empty entries the result is always on the list |
| InterpretChoices.RunInterpretChoices | src/ai/flows/interpret-choices.ts:69-90 | an error thrown by the model call passes through; otherwise the result is the flow applied to the answer, and a non-empty list of non-empty entries always yields a listed choice |
| InterpretChoices.EmptyEntryEscapesList | src/ai/flows/interpret-choices.ts:81-86 | over the list `[""]`, an invalid answer comes back as a choice that is not on the list |
| InterpretChoices.InterpretChoicesFlowCorrected | src/ai/flows/interpret-choices.ts:69-90 | with fallbacks used only for an empty list, a non-empty list always yields one of its own entries; valid answers and reasonings as in the original |
| InterpretChoices.CorrectedAgreesWithoutEmptyEntries | src/ai/flows/interpret-choices.ts:69-90 | the corrected and the original flow agree whenever no entry is the empty string |
| SceneImage.SelectTier | src/ai/flows/generate-scene-image-flow.ts:38-48 | B-movie exactly for turns up to 4, rising tension for 5-9, disturbing for 10-14, extreme from 15 |
| SceneImage.SelectTierMonotone | src/ai/flows/generate-scene-image-flow.ts:38-48 | a later turn never gets a milder tier |
| SceneImage.GenerateSceneImageFlow | src/ai/flows/generate-scene-image-flow.ts:37-67 | the image model is asked with the tier of the turn count. An error it throws passes through. Otherwise the flow fails with "Image generation failed or returned no media URL." exactly when the media or its URL is missing or empty, and else returns that (non-empty) URL |
| SceneVisualization.Tokens | src/components/game/SceneVisualization.tsx:22 | the lower-cased description split on whitespace runs gives at least one token, none containing whitespace (see `TokensRebuildDescription` for what the tokens are) |
| SceneVisualization.TokensRebuildDescription | src/components/game/SceneVisualization.tsx:22 | the tokens are the pieces of the lower-cased description between its maximal whitespace runs: glued back with those runs they give the lower-cased description, and only the first and last can be empty |
| SceneVisualization.KeywordNotEmpty | src/components/game/SceneVisualization.tsx:21-23 | a token that matches a keyword is non-empty |
| SceneVisualization.HintFromDescription | src/components/game/SceneVisualization.tsx:19-31 | the hint is never empty, and is "horror scene" for a missing or empty description |
| SceneVisualization.OperatingRoomNeverMatches | src/components/game/SceneVisualization.tsx:21-23 | no token, stripped of `.` and `,`, ever equals the two-word keyword "operating room" |
| SceneVisualization.HintFromTwoKeywords | src/components/game/SceneVisualization.tsx:23-26 | with keyword tokens at `i < j` and no other keyword before `j`, the hint is those two tokens joined by one space, punctuation still attached |
| SceneVisualization.HintFromOneKeyword | src/components/game/SceneVisualization.tsx:23-26 | with exactly one keyword token, the hint is that token |
| SceneVisualization.HintFromTwoLongTokens | src/components/game/SceneVisualization.tsx:29-30 | without keywords, the hint is the first two tokens longer than three characters, joined by a space |
| SceneVisualization.HintFromOneLongToken | src/components/game/SceneVisualization.tsx:29-30 | without keywords and with one long token, the hint is that token |
| SceneVisualization.HintDefault | src/components/game/SceneVisualization.tsx:29-30 | without keywords or long tokens, the hint is "horror scene" |
| SceneVisualization.AltText | src/components/game/SceneVisualization.tsx:33 | a missing or empty description gives "Scene visualization"; otherwise the alt text is "Visualization of: ", then the first (at most) 100 characters of the description, then "..." |
| SceneVisualization.ErrorText | src/components/game/SceneVisualization.tsx:68 | an error of at most 100 characters is shown as is; a longer one as its first 100 characters followed by "..." |
| SceneVisualization.ErrorTextIdempotent | src/components/game/SceneVisualization.tsx:68 | shortening an already shortened error changes nothing |
| SceneVisualization.ErrorNotice | src/components/game/SceneVisualization.tsx:57-68 | a notice appears exactly for a non-empty error while no image is loading; its text is the shortened error, non-empty and at most 103 characters long |
| Text.Lower | src/app/page.tsx:194-195 | `toLowerCase` keeps the length and lowers each character |
| Text.LowerSlice | src/app/page.tsx:194-195 | lowering commutes with taking a slice |
| Text.IncludesAt | src/app/page.tsx:194-195 | `includes` holds when the phrase occurs at some index |
| Text.IncludesWitness | src/app/page.tsx:194-195 | when `includes` holds, there is an index where the phrase occurs |
| Text.Words | src/components/game/SceneVisualization.tsx:22 | `split(/\s+/)` gives at least one piece, none containing whitespace |
| Text.WordsRebuildText | src/components/game/SceneVisualization.tsx:22 | the pieces of `split(/\s+/)`, glued back with the whitespace runs between them (one fewer than the pieces), give the text again |
| Text.WordsInnerPiecesNotEmpty | src/components/game/SceneVisualization.tsx:22 | only the first and the last piece of the split can be empty |
| Text.StripPunctuation | src/components/game/SceneVisualization.tsx:23 | `replace(/[.,]/g, '')` is the word with every `.` and `,` filtered out and every other character kept in order |
| Text.Filter | src/components/game/SceneVisualization.tsx:23-29 | `filter` keeps a sub-list of elements that all pass the test |
| Text.FilterFirstTwo | src/components/game/SceneVisualization.tsx:26-29 | the first two kept elements are the first two passing ones |
| Text.Take | src/components/game/SceneVisualization.tsx:26-33 | `slice(0, n)` and `substring(0, n)` give the first `n` elements, or all of them when there are fewer |
| Text.JoinSpace | src/components/game/SceneVisualization.tsx:26-30 | `join(" ")` of two words is the words with one space between |
| Text.NullIfEmpty | src/app/page.tsx:183 | the logical-or with `null` maps an empty string to none and keeps everything else |

## Left out

- **Numbers.** JavaScript numbers are modelled as unbounded integers. `NaN`,
  fractions and infinities in turn counts, health and stamina are not
  modelled.
- **Case and length.** `toLowerCase` is modelled for ASCII letters only.
  Lengths and `substring` count characters, not UTF-16 code units.
- **Random draw.** `Math.random` in the companion's no-answer fallback is the
  `pick` parameter. It is an index into the list, as
  `Math.floor(Math.random() * n)` would be.
- **Services.** The language-model and image-model calls, with their prompt
  texts and schema validation, are function parameters. The image model's
  style-guidance prose is the `HorrorTier` value that selects it.
- **Image side of the page.** `handleGenerateSceneImage` and the effect that
  calls it are not modelled. This includes their 150-character error slice
  and the `sceneImageUrl`/`imageLoading`/`imageError` state. The same goes for
  the `loading` flag, toasts and console output, since none of them feeds back
  into `GameState`.
- **Concurrency.** Asynchronous interleavings are not modelled: a second click
  while a service call is pending, or stale closures over `gameState`. Each
  handler runs to completion. Its requests are built from the state it
  started in, as the code builds them from the `gameState` of its render.
- **Input shapes.** The page's requests to the flows are modelled as the page
  builds them, and each flow's input as its schema declares it.
  - page.tsx sends `playerChoices`/`geminiStuck` and no vitals or turn count.
  - The flows' schemas expect `availableChoices`/`currentGeminiHealth` and
    the vitals.
  - page.tsx reads a `hint` from the companion's reply, which the flow's
    output schema does not have.
  
  The mismatches are not reconciled.
- **Health bound.** The narration flow's answer is only floored at 0, with no
  upper bound, as the code does. An upper bound of 2 on the returned health
  is described for the game but not enforced by the code.
- **UI and other code.** Rendering, animation and components other than
  `SceneVisualization`'s strings are not part of this model. Inventory,
  health and stamina are not held in the page's state in this version of the
  page.

## Findings

| source | as written | input that shows it | evidently intended | confidence | as-written member | corrected member |
|---|---|---|---|---|---|---|
| src/ai/flows/interpret-choices.ts:74-85 | the fallbacks are a logical-or on `choices[i]`, so an empty-string entry is replaced by a fixed sentence that is not on the list | available choices `[""]` and a model answer "Run" give "Observe the surroundings.", which is not an available choice | the fallback sentence only when the list is empty, so the companion's choice is always one of the offered ones | low (an empty choice is unlikely in practice); not executed | InterpretChoices.EmptyEntryEscapesList | InterpretChoices.InterpretChoicesFlowCorrected |
