# xmas-secret-gift, modelled in Dafny

A model of the logic of a seasonal greeting site: the timed
catch-the-falling-hearts mini-game, the questionnaire stepper, the visitor
counter hook, the landing page's screen flow, the name form's trim guard and
the admin page's login, logout, response counts and answer labels.

The mini-game (`catch_hearts_game.dfy`, `falling_items.dfy`) is the centre.
A `Session` object holds the component's six pieces of state: `score`,
`timeLeft`, `items`, `gameStarted`, `gameEnded` and `nextId`. Each timer
body (the one-second countdown, the 600 ms spawner, the 50 ms motion step),
the catch handler, `startGame` and `handleContinue` is a method on it.
Every method keeps one invariant, `Session.Valid`:
- `timeLeft` stays in [0, 15] and the score is never negative;
- `gameEnded` holds only after a start, and only with the clock at 0;
- live items have strictly increasing identifiers, all below `nextId`;
- every live item is inside the play field (x in [10, 90), speed in [2, 4), y in [-10, 110)).

Since every tick is a method callable in any order, these facts hold for any
interleaving of ticks and catches. The item-list transforms (move then
evict, remove by id) are pure functions with lemmas. Those lemmas cover which
items survive, order preservation, increasing identifiers, and catching
removing exactly one item.

The other components are modelled the same way:
- The questionnaire, the stats hook, the landing page and the admin page are
  classes whose methods update their fields.
- The name form's guard, the role partition and the label rewrite are
  functions.
- Callbacks (`onComplete`, `onBack`) come back as a returned `Signal`.
- Database reads and the save outcome are parameters.
- Database writes are returned values, and so are the toasts that report an
  outcome (the login result, the failed save); the fixed logout toast is not
  modelled.

Where the code and a natural reading of the game differ, the model follows
the code:
- the catch handler does not check that the item is still live;
- `startGame` does not reset the identifier counter;
- the game component has no way back from the end screen to the start
  screen (the end screen only offers "continue").

## Model

| member | source | states |
|---|---|---|
| FallingItems.Points | src/components/CatchHeartsGame.tsx:84 | a catch is worth 1 or 2 points, 2 exactly for a heart, so every catch strictly raises the score |
| FallingItems.NewItem | src/components/CatchHeartsGame.tsx:51-57 | a spawned item has the given id, y = -10, x in [10, 90), speed in [2, 4), and is a heart iff the kind draw is above 0.3 |
| FallingItems.Moved | src/components/CatchHeartsGame.tsx:72-73 | the moved list has the same length, and item i is item i with y advanced by its own speed |
| FallingItems.OnScreen | src/components/CatchHeartsGame.tsx:74 | an item is kept iff it was there with y below 110, and the kept items are a subsequence (order preserved) |
| FallingItems.MotionStep | src/components/CatchHeartsGame.tsx:71-75 | the motion tick's item-list updater never lengthens the list and leaves no item at or past y = 110 |
| FallingItems.WithoutId | src/components/CatchHeartsGame.tsx:86 | an item is kept iff it was there with a different id, and the kept items are a subsequence |
| FallingItems.SubsequenceKeepsIdsIncreasing | src/components/CatchHeartsGame.tsx:72-74 | dropping items from a list with strictly increasing ids keeps them strictly increasing |
| FallingItems.MotionStepSurvivors | src/components/CatchHeartsGame.tsx:71-75 | after a motion tick no item has y >= 110; an item survives iff it is some old item fallen by its speed (id, x, kind, speed unchanged) and below 110 |
| FallingItems.MotionStepKeepsOrder | src/components/CatchHeartsGame.tsx:71-75 | survivors keep their old order, and ids stay strictly increasing and below the next id |
| FallingItems.WithoutIdRemovesOne | src/components/CatchHeartsGame.tsx:86 | with strictly increasing ids and the id present, the catch filter removes exactly one item |
| FallingItems.WithoutIdAbsent | src/components/CatchHeartsGame.tsx:86 | filtering out an id that no item has leaves the list unchanged |
| FallingItems.SpawnThenMove | src/components/CatchHeartsGame.tsx:50-75 | a spawn followed by a motion tick moves the old items as if alone and keeps the new item (fallen once, never evicted) at the end |
| CatchHeartsGame.Countdown | src/components/CatchHeartsGame.tsx:34-40 | the clock never goes negative and loses one second while above 1; at 1 or below it is set to 0 and the game ends; the game ends exactly when the clock shows 0 |
| CatchHeartsGame.CountdownEndsOnTick | src/components/CatchHeartsGame.tsx:33-41 | a running game with t >= 1 seconds left shows t - n after n < t ticks and is ended with 0 from the t-th tick on |
| CatchHeartsGame.FullGameIsFifteenTicks | src/components/CatchHeartsGame.tsx:18 | from a fresh start, 14 ticks leave 1 second and the 15th ends the game |
| CatchHeartsGame.Session.CurrentScreen | src/components/CatchHeartsGame.tsx:103-139 | the start screen iff the game has not started, the game screen iff started and not ended, the end screen iff started and ended, and the end screen only with the clock at 0 |
| CatchHeartsGame.Session.constructor | src/components/CatchHeartsGame.tsx:22-27 | a new session: score 0, 15 seconds, no items, not started, not ended, next id 0 |
| CatchHeartsGame.Session.ClockTick | src/components/CatchHeartsGame.tsx:30-41 | outside the game screen nothing changes; on it the time and ended flag follow Countdown, time strictly drops, nothing else changes |
| CatchHeartsGame.Session.Spawn | src/components/CatchHeartsGame.tsx:47-60 | outside the game screen nothing changes; on it one NewItem with id = next id is appended, the next id grows by 1, old items are untouched |
| CatchHeartsGame.Session.MotionTick | src/components/CatchHeartsGame.tsx:67-76 | outside the game screen nothing changes; on it the items become MotionStep of the old items and nothing else changes; no live item has y >= 110 |
| CatchHeartsGame.Session.CatchItem | src/components/CatchHeartsGame.tsx:81-87 | once ended nothing changes; otherwise score grows by the item's points, exactly one item (the one with that id) is removed, the rest keep their order |
| CatchHeartsGame.Session.StartGame | src/components/CatchHeartsGame.tsx:89-95 | callable only from the start screen; started, not ended, score 0, 15 seconds, no items; the next id is kept, so ids are never reused |
| CatchHeartsGame.Session.HandleContinue | src/components/CatchHeartsGame.tsx:97-99 | reports the current score unchanged (never negative) |
| CatchHeartsGame.FifteenSecondGame | src/components/CatchHeartsGame.tsx:30-44 | start then 15 clock ticks: the end screen, score 0, clock 0 |
| CatchHeartsGame.UncaughtHeartFallsOff | src/components/CatchHeartsGame.tsx:66-79 | a heart of speed 2 left alone is evicted by the 60th motion tick with no score |
| CatchHeartsGame.EndedGameIsFinal | src/components/CatchHeartsGame.tsx:31-82 | on the end screen a clock tick, a spawn, a motion tick and a catch each change nothing, and the end screen stays |
| CatchHeartsGame.CatchOneSnowflake | src/components/CatchHeartsGame.tsx:81-87 | catching a fresh snowflake scores 1 and leaves no live item, and its id lies below the next id |
| QuestionnaireFlow.QuestionsFor | src/components/Questionnaire.tsx:11-68 | five questions for a friend, three for family, ids distinct, both ending with "ready" |
| QuestionnaireFlow.Questionnaire.constructor | src/components/Questionnaire.tsx:67-71 | the role's question list, index 0, no answers, empty text |
| QuestionnaireFlow.Questionnaire.SetTextInput | src/components/Questionnaire.tsx:175 | only the text input changes |
| QuestionnaireFlow.Questionnaire.Answer | src/components/Questionnaire.tsx:90-98 | stores the answer under the current id; advances unless on the last question, where it completes with a map whose keys are exactly the question ids |
| QuestionnaireFlow.Questionnaire.HandleChoice | src/components/Questionnaire.tsx:76-85 | stores the option under the current id, then advances or completes with exactly the question ids as keys; the text input is untouched |
| QuestionnaireFlow.Questionnaire.HandleTextSubmit | src/components/Questionnaire.tsx:87-99 | blank text (after trim) changes nothing; otherwise the untrimmed text is stored, the input cleared, and the step advances or completes |
| QuestionnaireFlow.Questionnaire.HandlePrevious | src/components/Questionnaire.tsx:101-108 | on index 0 nothing changes and onBack fires; otherwise one step back with the text restored to that question's stored answer, which always exists |
| GameStats.IncrementsNeeded | src/hooks/useGameStats.ts:26-30 | no increment before 30 minutes or at 40; otherwise at least one, at most one per whole 30 minutes, never past 40, and equal to one of the two bounds |
| GameStats.FetchedStats | src/hooks/useGameStats.ts:26-48 | the fake count never drops, never passes 40 unless it already had, and grows iff 30 minutes have passed below 40; real count and local timestamp unchanged |
| GameStats.TotalVisibleCount | src/hooks/useGameStats.ts:75 | 0 while no statistics are loaded |
| GameStats.TotalAfterFetch | src/hooks/useGameStats.ts:75 | the shown total after a fetch is the row's total plus exactly the increments due |
| GameStats.StatsHook.constructor | src/hooks/useGameStats.ts:11-12 | no statistics yet, loading |
| GameStats.StatsHook.FetchStats | src/hooks/useGameStats.ts:14-51 | loading ends; a failed read keeps the old statistics; a row becomes FetchedStats; an update is written iff increments are due, with the new count and the current time |
| GameStats.StatsHook.IncrementRealCount | src/hooks/useGameStats.ts:53-69 | nothing happens without statistics or without a re-read row; otherwise the local real count grows by 1, the row's count plus 1 is written, and the shown total grows by exactly 1 |
| IndexPage.Index.CurrentScreen | src/pages/Index.tsx:75-89 | the questionnaire is shown iff in its state with a role (and for that role); selection and gift each have their screen; a valid state always shows one |
| IndexPage.Index.constructor | src/pages/Index.tsx:15-16 | selection, no role |
| IndexPage.Index.HandleRoleSelect | src/pages/Index.tsx:18-21 | the role is set and the questionnaire for it is shown |
| IndexPage.Index.HandleQuestionnaireComplete | src/pages/Index.tsx:23-42 | the answers go out with the role, an error toast only for a returned save error, and the page always ends on the gift |
| IndexPage.Index.HandleRestart | src/pages/Index.tsx:44-47 | back to selection with no role |
| IndexPage.Index.HandleBack | src/pages/Index.tsx:49-52 | back to selection with no role |
| JsString.Trim | src/components/NameInput.tsx:13 | the result is the contiguous piece of the input left after dropping an all-white-space prefix and an all-white-space suffix; it has no white space at either end, and is empty iff the input is all white space |
| JsString.TrimIdempotent | src/components/NameInput.tsx:14 | trimming a trimmed string changes nothing |
| NameInput.HandleSubmit | src/components/NameInput.tsx:11-16 | submits iff the name has a non-space character; the submitted name is non-empty, has no white space at its ends, is its own trim, and occurs contiguously in the name with only white space before and after it |
| NameInput.SubmitDisabled | src/components/NameInput.tsx:63 | the button is disabled exactly when the name is all white space |
| NameInput.DisabledIffRejected | src/components/NameInput.tsx:63 | the submit button is disabled exactly when the handler would not submit |
| AdminPage.Admin.constructor | src/pages/Admin.tsx:22-29 | logged in on load exactly when the session flag is stored |
| AdminPage.Admin.SetUsername | src/pages/Admin.tsx:136 | only the username field changes |
| AdminPage.Admin.SetPassword | src/pages/Admin.tsx:150 | only the password field changes |
| AdminPage.Admin.HandleLogin | src/pages/Admin.tsx:31-65 | no account gives the username error, a wrong password the password error, an exception the generic error, all leaving login and session flag as they were; login happens iff the stored password equals the entered one, and sets both |
| AdminPage.Admin.FetchResponses | src/pages/Admin.tsx:67-83 | a failed query keeps the list, a null result empties it, rows replace it; nothing else changes |
| AdminPage.Admin.HandleLogout | src/pages/Admin.tsx:85-91 | session flag cleared, logged out, username and password emptied |
| AdminPage.OfType | src/pages/Admin.tsx:171-172 | a response is kept iff it has the given role, and each response of that role is kept exactly as many times as it occurs (multiset), so the count is exact |
| AdminPage.CountsPartition | src/pages/Admin.tsx:171-239 | the friend and family counts add up to the total shown |
| AdminPage.FieldLabel | src/pages/Admin.tsx:285 | same length, every underscore becomes a space, every other character is kept, no underscore remains |

## Left out

- Timer scheduling: `setInterval`/`clearInterval`, effect dependencies and cleanup, and the event loop are not modelled. Each timer firing is one method call guarded by the component's own phase check, in any order.
- React's render closures: handlers that read state captured at render time are modelled as reading the current state, which is the same when a render happens between events.
- `Math.random`: the spawner's three draws are parameters in [0, 1).
- Floating point: positions and speeds are exact reals, so rounding in `y + speed` is not captured.
- CatchHeartsGame.Session.CatchItem: requires the tapped item (same id and kind) to be live. The component does not check this. It would credit points again for a stale tap on an item already removed. The model leaves that case out because a button exists only for a rendered live item.
- Database access, `localStorage`, toasts, `navigate` and `console` are not modelled: query results are parameters, and writes and outcome toasts are returned values (the login outcome, the save notice). The `loading` flag of the login form is kept; its spinner text is not.
- AdminPage.Admin.HandleLogin: the `fetchResponses()` call after a successful login is a separate `FetchResponses` call, and so is the one on page load.
- GameStats.StatsHook.FetchStats: the stored timestamp is taken as whole milliseconds, so an unparsable date (which would compare as NaN and skip the increment) is not modelled.
- Question texts and option labels (display strings), the progress bar percentage and the question counter are not modelled.
- The name input's `maxLength={50}` and the answer label's `capitalize` style are browser/CSS behaviour and are not modelled.
- The mini-game's start-screen back button calls the page's `onBack` directly and changes no game state, so it is not modelled.
- The logout toast is a fixed message with no decision behind it and is not modelled.
- The date formatting on the admin page depends on the locale and is not modelled.
- src/components/GiftReveal.tsx, src/components/ChristmasMusic.tsx, src/components/Snowfall.tsx, src/components/RoleSelection.tsx and src/components/VisitorCount.tsx are presentation and are not part of this model.
