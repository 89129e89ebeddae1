# Practice sessions and the stats profile of an exam-prep app, in Dafny

This project models the two pieces of logic in a React exam-practice app.

- **Practice session.** One batch of multiple-choice questions is walked
  through forward. Each question has three steps:
  - The user selects an option. This is tentative and can be overwritten.
  - The user submits. The question locks, and the score and the per-section
    tallies are updated.
  - The user presses Next. This advances to the next question, or, on the
    last question, reports `(score, batch length)`.
- **Stats aggregation.** A finished session is folded into the durable
  profile. The practised category's score is either the session's rounded
  accuracy (first attempt) or a 50/50 blend with the previous value. The two
  counters rise. The overall average is recomputed from scratch over every
  category entry that is positive.

Modules:

- `Types` (`types.dfy`): the closed `Category` enumeration, `Question`,
  `UserStats` and the initial profile.
- `Scoring` (`scoring.dfy`): the tally record and the copy-and-update tally
  step. It also holds reference folds that say what a history of submitted
  answers adds up to.
- `Practice` (`practice.dfy`): the session as a class, from the moment its
  batch of questions has arrived. The batch becomes a constant field. The
  component's index, selection, lock, score, section tallies and tutor text
  become mutable fields; its loading flag is not modelled. Its methods are
  `HandleSelect`, `HandleSubmit`, `HandleNext` and the arrival of tutor
  feedback.
- `Stats` (`stats.dfy`): `ApplySessionResult` as a pure function. The
  program's floating-point arithmetic is replaced by exact rationals. Each
  `Math.round(p / q)` is computed in integers as `(2p + q) div (2q)`. Lemma
  `RoundDivIsRound` proves this equals rounding the exact real quotient
  (`floor(x + 1/2)`, which is what `Math.round` does).
- `App` (`app.dfy`): the application shell as a class. It covers starting and
  exiting a session, mapping views to categories, the completion callback, and
  the wiring from a session's last Next into the profile.

The session invariant `Session.Valid()` ties the running state to a ghost
history of the answers that were locked in. It says:

- the score is the number of correct answers;
- the tallies are those of the history, question by question;
- the score is the sum of the tallies' `correct`;
- the tallies' `total`s add up to the number of submitted questions, which is
  at most `currentIndex + 1` and at most the batch length;
- no tally has more `correct` than `total`.

Every method keeps this invariant. `HandleNext` never moves the index
backwards.

Three choices follow the code as written:

- The composite MOCK category has its own score entry, and it is counted in the
  average.
- A session with zero questions is not guarded; the program would divide by 0.
  `ApplySessionResult` therefore requires `total > 0`.
- An empty batch is not handled; the session's first render reads the first
  question. The session constructor therefore requires a non-empty batch.

## Model

| member | source | states |
|---|---|---|
| `Types.AllCategoriesExact` | types.ts:2-8 | `Category` is closed: exactly five values, `Distinct` (no repetitions), every category is among them, and no two share a display string |
| `Types.Name` | types.ts:3-7 | every category carries a non-empty display string; `AllCategoriesExact` proves no two share one |
| `Types.CategoryCases` | types.ts:2-8 | every category is one of READING, VOCABULARY, GRAMMAR, MATH, MOCK |
| `Types.InitialStats` | App.tsx:8-19 | the initial profile has an entry for every category, each 0, and all counters and the average at 0 |
| `Scoring.IsCorrect` | components/Practice.tsx:43 | a selection is correct iff it equals the question's correct index; on a well-formed question a correct selection is a valid option |
| `Scoring.TallyUpdate` | components/Practice.tsx:50-59 | the entry of the question's own category gains one question, and one correct answer iff the answer was right; a missing entry counts as {0,0}; every other entry is unchanged |
| `Scoring.TalliesCount` | components/Practice.tsx:50-59 | after any history, each category's tally holds exactly the number of that category's questions and the number of them answered correctly |
| `Scoring.CorrectInAtMostCountIn` | components/Practice.tsx:55-56 | within a category, correct answers never outnumber submitted questions |
| `Scoring.SumsAfterUpdate` | components/Practice.tsx:45-59 | one submission raises the sum of totals by 1, and the sum of correct counts by 1 exactly when the answer is right, which is how the score moves |
| `Scoring.TalliesInvariant` | components/Practice.tsx:45-59 | over any history: the sum of `correct` equals the number of correct answers, the sum of `total` equals the number submitted, the score is at most that, and `correct <= total` for every entry |
| `Practice.Session.constructor` | components/Practice.tsx:13-20 | a session starts at index 0 with no selection, unlocked, score 0, empty tallies and no tutor text, and the invariant holds |
| `Practice.Session.CurrentQuestion` | components/Practice.tsx:92 | the question on screen is the one at the current index, and it is well formed |
| `Practice.Session.IsLastQuestion` | components/Practice.tsx:93 | the test that makes Next finish rather than advance; once the last question is locked, every question of the batch has been submitted |
| `Practice.Session.HandleSelect` | components/Practice.tsx:33-36 | once the question is locked the selection does not change; before that each call overwrites the tentative choice; nothing else changes |
| `Practice.Session.HandleSubmit` | components/Practice.tsx:38-59 | only callable while unanswered; with no selection no state changes; otherwise the question locks, the score rises by 1 iff the selection is the correct answer, the tallies take one `TallyUpdate` for the question's category, and the invariant is kept |
| `Practice.Session.ReceiveTutorFeedback` | components/Practice.tsx:61-62 | late feedback writes only the tutor text; the game state and the invariant are untouched |
| `Practice.Session.HandleNext` | components/Practice.tsx:65-75 | only callable once answered; the index never decreases; before the last question it rises by 1 and the selection, lock and tutor text are cleared; on the last question it reports `(score, batch length)` with the index unchanged, every question submitted and the score the number of correct answers |
| `Stats.RoundDiv` | App.tsx:47 | the integer rounding of `p / q` lies within half of `p / q`, ties going up |
| `Stats.RoundDivIsRound` | App.tsx:47 | `(2p + q) div (2q)` equals `Math.round` of the exact quotient `p / q`, for every integer `p` and positive `q` |
| `Stats.RoundDivBetween` | App.tsx:56-58 | rounding `p / k` stays in `[lo, hi]` whenever `p / k` does |
| `Stats.PriorScore` | App.tsx:46 | the practised category's previous entry, read as 0 when the key is missing; on a total map it is the stored entry |
| `Stats.NewCategoryScore` | App.tsx:46-47 | a first attempt (prior 0) gives the integer nearest to `100 * score / total`; otherwise the integer nearest to the mean of the prior and that accuracy; ties go up |
| `Stats.NewCategoryScoreIsBlend` | App.tsx:42-47 | the new entry is `Math.round(accuracy)` when the prior is 0 and `Math.round((prior + accuracy) / 2)` otherwise, with the accuracy `score / total * 100` left unrounded |
| `Stats.NewCategoryScoreBounds` | App.tsx:42-47 | a prior in [0,100] and a session with `0 <= score <= total` give a new entry in [0,100] |
| `Stats.AverageScore` | App.tsx:54-58 | with `n` positive entries summing to `sum`, the average is the integer nearest to `sum / n` (ties up); with none it is 0 |
| `Stats.AverageZeroIffUnattempted` | App.tsx:54-58 | the average is 0 exactly when no category entry is positive |
| `Stats.AverageBetween` | App.tsx:54-58 | when some entry is positive, the average lies between any lower and upper bound of the positive entries |
| `Stats.AttemptedCountZero` | App.tsx:55 | the filtered list is empty exactly when no category entry is positive |
| `Stats.AttemptedSumBetween` | App.tsx:57 | the sum of the filtered values lies between `lo * count` and `hi * count` when each value does |
| `Stats.ApplySessionResult` | App.tsx:39-58 | `completedQuizzes` rises by exactly 1 and `questionsAnswered` by `total`; only the practised category's entry is rewritten, to the blended score of its prior (0 if missing); the average is recomputed over the updated entries |
| `Stats.ApplyKeepsInRange` | App.tsx:42-58 | with `0 <= score <= total`, `total > 0` and a profile in range, every category entry and the average stay in [0,100] |
| `Stats.InitialInRange` | App.tsx:8-19 | the initial profile is in range |
| `Stats.ApplyAllCounters` | App.tsx:49-50 | over any run of sessions the counters rise by the number of sessions and the number of questions, so they never decrease, and a profile in range stays in range |
| `Stats.MathTwoSessions` | App.tsx:42-58 | from the initial profile, 4/5 in MATH gives 80, one quiz, five questions and an average of 80; then 2/5 gives 60, two quizzes, ten questions and an average of 60 |
| `Stats.BlendExample` | App.tsx:47 | a prior of 60 and a 4/5 session blend to 70 |
| `Stats.AverageExample` | App.tsx:54-58 | entries 80, 0 and 40 average to 60, with the 0 left out |
| `Stats.MockIsItsOwnEntry` | App.tsx:46-47 | a MOCK session only changes the MOCK entry; the four subjects keep their scores |
| `Stats.ZeroScoreReadsAsUnattempted` | App.tsx:46-47 | a first session scored 0% leaves the entry at 0, so the next session takes the first-attempt branch: 5/5 then gives 100, not 50 |
| `App.ViewCategory` | App.tsx:71-77 | the five subject views map to their categories, each in both directions; the dashboard and practice views map to none |
| `App.AppState.constructor` | App.tsx:22-24 | the app opens on the dashboard with the initial profile and no current category |
| `App.AppState.StartPractice` | App.tsx:65-68 | starting a session sets the current category and shows the practice view; the profile is not touched |
| `App.AppState.SetActiveView` | App.tsx:70-77 | choosing a subject view starts a session for its category; any other view is shown as chosen, with the current category kept |
| `App.AppState.HandleFinishPractice` | App.tsx:39-63 | with no current category nothing changes; otherwise the profile becomes `ApplySessionResult` of the old one, the dashboard is shown, the category is cleared, and the profile stays in range |
| `App.AppState.ExitPractice` | App.tsx:89-92 | exiting shows the dashboard and clears the category, and the profile is unchanged |
| `App.AppState.PressNext` | components/Practice.tsx:65-75 | Next finishes exactly on the last question. An advancing Next moves the session one question on and clears its selection, lock and tutor text; the profile, the view and the category are unchanged. A finishing Next leaves the session where it is and hands `(score, batch length)` to the completion callback: the score is the session's and the number of correct answers, and `0 <= score <= total > 0`. With a current category the callback folds the result into the profile (for the session's own category when the shell is wired as at App.tsx:86-87), shows the dashboard and clears the category; without one, the profile and the view are unchanged |

## Left out

- Question generation and tutor feedback are network calls to an external AI
  service. The batch is a constructor argument: any non-empty sequence of
  well-formed questions. Feedback is modelled only as the later event
  `ReceiveTutorFeedback`.
- The feedback race: a feedback reply can arrive after Next and overwrite the
  next question's tutor text. This is a concern of asynchronous scheduling.
  The model only shows that such a write touches nothing but the display text.
- Loading the profile from browser storage and saving it back, including the
  JSON round trip. This is browser I/O. The app starts from the initial
  profile, and the app invariant does not cover a stored profile that is out
  of range.
- The loading phase of the session: the `loading` flag, the fetch that fills
  the batch and the loading screen. They depend on the network call above.
  The session class starts once the batch is there.
- The empty batch: the program would fail on its first render, so the session
  requires at least one question.
- `App.AppState.HandleFinishPractice`: requires `0 <= score <= total`. Its only
  caller, the session, always supplies such a result (proved in
  `Practice.Session.HandleNext`). The program itself does not check it.
- The shallow copy of the profile: the copy shares `categoryScores` with the
  old profile (and with the initial-profile constant). The update therefore
  also writes into the old object. The model returns a fresh map.
- Floating-point arithmetic: every quantity is an exact rational. This leaves
  out binary rounding errors in `score / total * 100`.
- Rendering: the dashboard, the layout, the progress bar, scrolling,
  animations and option styling. React effect scheduling is also left out;
  the view-to-category effect is folded into `SetActiveView`.
- The unused `QuizSession` record.
- Question fields other than the category, the options and the correct index
  are carried but never inspected. Nothing checks that a selected index lies
  within the options. A selection outside them is simply wrong.
