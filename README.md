# Quiz engine model

A Dafny model of the client-side quiz engine of an NPTEL practice-quiz web app. It has three parts:

- **Question validation and sanitisation** (`src/utils/validation.js`), in module `Validation`. A loosely typed question record is modelled as the datatype `Raw`. `validateQuestion` and `validateQuestions` are loops, proved equal to declarative predicates. `sanitizeQuestion` is a function whose result is tied field by field to the input: trimmed text, trimmed string options, `""` for each non-string option, and the floor of the index. It is proved idempotent, and a lemma states exactly which inputs it turns into valid questions. `sanitizeQuestions` is proved to return only valid questions and to keep every sanitised input that passes `validateQuestion`, as often as it occurs.
- **The session store** (`src/context/QuizContext.jsx`), in module `QuizContext`. It holds the ten-field state record, its initial value, and `quizReducer` with frame lemmas. The `useReducer` provider is a `Store` class whose setter methods dispatch one action each.
- **The session engine** (`src/components/QuizComponent.jsx`). It is split into two modules:
  - `Shuffle`: the in-place Durstenfeld shuffle `shuffleArray` as a method on an array. It is proved against a specification function over explicit random draws. Every permutation is reachable, and on distinct elements different draws give different orders.
  - `QuizComponent`: `startQuiz`, the option re-indexing, `handleNext`, `handleOptionSelect`, the Home, Retry, Change-Year and Choose-Different-Week handlers, and the order of checks that picks the screen.

Each handler is modelled twice:
- a specification function over the state the handler's closure captured;
- a method that calls the same `Store` setters in the same order, proved to leave exactly that state.

Lemmas about the specification functions state:
- the outcome of each handler;
- the screen each handler lands on;
- a session invariant (index in range, `0 <= score <= questions answered`), which every handler preserves.

`Wrappers` holds `Option`, which stands for `null`/`undefined` where a field may hold one.

Inputs that the code reads from its environment are parameters:
- `window.nptelData` is `data: map<string, seq<WeekEntry>>`. Each year's weeks are listed in the order `Object.values` yields integer-like keys.
- `Math.random()` is replaced by vectors of draws. In the step for index `i`, the draw is `c[i]` with `0 <= c[i] <= i`, the range that `Math.floor(Math.random() * (i + 1))` produces.
- A year is held as its decimal string. The year buttons pass numbers such as `2025`, which every check and lookup in the code converts with `String(year)` or uses as a property key, so it comes to the same thing.

Behaviour of the code that the model keeps:
- `startQuiz` writes `selectedYear` and `selectedWeek` before it checks for an empty pool. An empty pool therefore changes those two fields.
- The year buttons store the year without any format check.
- "all" for a year missing from the data throws (`Object.values(undefined)`) after the two setters ran. This is the `Crashed` outcome.
- On the last question, `selectedOption` is not cleared.
- The Home buttons clear individual fields rather than dispatching `RESET_QUIZ`.

## Model

| member | source | states |
|---|---|---|
| Validation.ValidateQuestion | src/utils/validation.js:10-58 | returns true exactly when the input is an object whose text is a string non-empty after trim, whose options are a non-empty array of strings each non-empty after trim, and whose index is an integer number in [0, options.length) |
| Validation.ValidateQuestions | src/utils/validation.js:94-108 | false for a non-array; otherwise true exactly when every element passes `validateQuestion` (so true for `[]`) |
| Validation.TrimStart | src/utils/validation.js:21 | dropping the leading whitespace leaves a string no longer than the input that is empty or starts with a non-whitespace character |
| Validation.TrimEnd | src/utils/validation.js:21 | dropping the trailing whitespace leaves a string no longer than the input that is empty or ends with a non-whitespace character, and keeps a non-whitespace first character |
| Validation.Trim | src/utils/validation.js:71-73 | `trim` (also called at lines 21 and 37) gives a string no longer than the input with no whitespace at either end |
| Validation.TrimSpec | src/utils/validation.js:21 | `trim` leaves no whitespace at either end, is empty exactly for all-whitespace strings, and leaves a trimmed string unchanged |
| Validation.TrimStartSpec | src/utils/validation.js:21 | removing leading whitespace leaves a string that is empty or starts with a non-whitespace character, and is empty only for an all-whitespace string |
| Validation.TrimEndSpec | src/utils/validation.js:21 | removing trailing whitespace leaves a string that is empty or ends with a non-whitespace character, and is empty only for an all-whitespace string |
| Validation.TrimIdempotent | src/utils/validation.js:21 | trimming twice is trimming once |
| Validation.SanitizeQuestion | src/utils/validation.js:65-87 | null for a falsy input; a truthy primitive gives an object with empty text, no options and index 0; for an object, the text is the trimmed string (`""` for a falsy or non-string text), the options are an array as long as the original whose k-th entry is the trimmed k-th option or `""` for a non-string (`[]` for a non-array), the index is the floor of a numeric index and 0 for a non-numeric one, and every other property is copied |
| Validation.SanitizedIsTrimmed | src/utils/validation.js:71-73 | every string of a sanitised question, its text and each option, has no whitespace at either end |
| Validation.SanitizeQuestionAsWritten | src/utils/validation.js:71 | as written, the function throws exactly when the text is a truthy non-string; on every other input it agrees with the corrected `SanitizeQuestion` |
| Validation.SanitizeAsWrittenThrowsOnNumericText | src/utils/validation.js:71 | a question whose text is a number makes the code as written throw, while the corrected function returns an object |
| Validation.SanitizeIdempotent | src/utils/validation.js:65-87 | sanitising a sanitised question changes nothing |
| Validation.SanitizedValidIff | src/utils/validation.js:65-87 | a sanitised question passes `validateQuestion` exactly when the raw record is an object with text non-empty after trim, a non-empty options array whose entries are strings non-empty after trim, and an index that is either a number whose floor is in range or not a number at all (it becomes 0) |
| Validation.SanitizeKeepsValid | src/utils/validation.js:65-87 | sanitising a valid question yields a valid question |
| Validation.Filter | src/utils/validation.js:121-123 | `filter` keeps an order-preserving subsequence whose elements all pass the test, and each element that passes occurs in the result exactly as often as in the input |
| Validation.SanitizeQuestions | src/utils/validation.js:115-124 | built on the corrected `SanitizeQuestion` (as written, the code throws for a list holding a record with truthy non-string text; see Findings): `[]` for a non-array; otherwise an order-preserving subsequence of the sanitised non-null inputs, no longer than the input, every element of which passes `validateQuestion`; each sanitised input that passes occurs in the result exactly as often as among all sanitised inputs, so only the invalid ones are dropped; a list of valid questions only gets sanitised element by element |
| QuizContext.InitialState | src/context/QuizContext.jsx:7-18 | the store opens with no questions, index 0, score 0, no selected option, no results, loading, no error, no year or week, and light mode |
| QuizContext.Reduce | src/context/QuizContext.jsx:36-67 | a `SET_*` action writes its payload to its own field and leaves every other field unchanged; `RESET_QUIZ` gives the initial state except `darkMode` kept and `isLoading` false; an unknown type returns the state unchanged |
| QuizContext.LastWriteWins | src/context/QuizContext.jsx:38-57 | two writes to the same field equal the second write alone |
| QuizContext.WriteCurrentValueIsIdentity | src/context/QuizContext.jsx:38-57 | writing a field's current value is the identity |
| QuizContext.DistinctWritesCommute | src/context/QuizContext.jsx:38-57 | writes to different fields commute |
| QuizContext.ResetDependsOnlyOnDarkMode | src/context/QuizContext.jsx:58-63 | the reset state depends on `darkMode` alone, so resetting twice equals resetting once |
| QuizContext.Extensionality | src/context/QuizContext.jsx:7-18 | two states that agree on each of the ten fields are equal |
| QuizContext.Store.constructor | src/context/QuizContext.jsx:71 | the provider starts from `initialState` |
| QuizContext.Store.Dispatch | src/context/QuizContext.jsx:71 | `dispatch` replaces the state with the reducer's result |
| QuizContext.Store.SetQuestions | src/context/QuizContext.jsx:74-76 | dispatches `SET_QUESTIONS` with its argument |
| QuizContext.Store.SetCurrentQuestionIndex | src/context/QuizContext.jsx:78-80 | dispatches `SET_CURRENT_QUESTION_INDEX` with its argument |
| QuizContext.Store.SetScore | src/context/QuizContext.jsx:82-84 | dispatches `SET_SCORE` with its argument |
| QuizContext.Store.SetSelectedOption | src/context/QuizContext.jsx:86-88 | dispatches `SET_SELECTED_OPTION` with its argument |
| QuizContext.Store.SetShowResult | src/context/QuizContext.jsx:90-92 | dispatches `SET_SHOW_RESULT` with its argument |
| QuizContext.Store.SetLoading | src/context/QuizContext.jsx:94-96 | dispatches `SET_LOADING` with its argument |
| QuizContext.Store.SetError | src/context/QuizContext.jsx:98-100 | dispatches `SET_ERROR` with its argument |
| QuizContext.Store.SetSelectedYear | src/context/QuizContext.jsx:102-104 | dispatches `SET_SELECTED_YEAR` with its argument |
| QuizContext.Store.SetSelectedWeek | src/context/QuizContext.jsx:106-108 | dispatches `SET_SELECTED_WEEK` with its argument |
| QuizContext.Store.SetDarkMode | src/context/QuizContext.jsx:110-112 | dispatches `SET_DARK_MODE` with its argument |
| QuizContext.Store.ResetQuiz | src/context/QuizContext.jsx:114-116 | dispatches `RESET_QUIZ` |
| Shuffle.ShuffleArray | src/components/QuizComponent.jsx:8-15 | takes an array, leaves it unmodified, and returns a fresh array that does not alias it, holding the input's contents after the swap loop for the given draws |
| Shuffle.Shuffled | src/components/QuizComponent.jsx:8-15 | the shuffled list has the input's length and multiset: it is a permutation |
| Shuffle.StepsPermute | src/components/QuizComponent.jsx:10-13 | any run of the swap steps permutes the list |
| Shuffle.StayDrawsAreIdentity | src/components/QuizComponent.jsx:10-13 | drawing j = i at every step returns the input unchanged |
| Shuffle.ShuffledSplit | src/components/QuizComponent.jsx:10-13 | the last element of the result is the one the first step drew, and the rest is the remaining steps applied to what that swap left |
| Shuffle.EveryPermutationReachable | src/components/QuizComponent.jsx:10-13 | every permutation of the input is the result for some legal draws |
| Shuffle.DistinctDrawsDistinctOrders | src/components/QuizComponent.jsx:10-13 | on distinct elements, different draws give different results, so draws and orderings correspond one to one |
| QuizComponent.FromValidated | src/utils/validation.js:45-57 | a question that passes `validateQuestion` has an answer index pointing at one of its options |
| QuizComponent.ValidatedPoolKeepsAnswers | src/components/QuizComponent.jsx:106-117 | a pool built from records that pass `validateQuestion` randomises into a session where each answer index is in range and names the option its record marked correct |
| QuizComponent.IndexOf | src/components/QuizComponent.jsx:111 | `indexOf` gives the first position holding the value, and -1 exactly when no position does |
| QuizComponent.PickShuffledKeys | src/components/QuizComponent.jsx:108-110 | reading the options through the shuffled positions gives the options shuffled with the same draws |
| QuizComponent.ShuffledKeysIndexOf | src/components/QuizComponent.jsx:111 | an answer index in range is found among the shuffled positions, and one out of range gives -1 |
| QuizComponent.RandomizedSpec | src/components/QuizComponent.jsx:107-117 | each session question keeps the question and its options, its `shuffledOptions` are a permutation of the options, and its new answer index is in range and names the same option text when the old one was in range, or -1 otherwise |
| QuizComponent.RandomizeSpec | src/components/QuizComponent.jsx:106-117 | the session questions are a permutation of the pool, each extended as above |
| QuizComponent.RandomizeQuestion | src/components/QuizComponent.jsx:107-117 | the `map` callback (a fresh key array, shuffled, then the options read through it and the answer looked up) yields exactly the specified randomised question |
| QuizComponent.RandomizePool | src/components/QuizComponent.jsx:106-117 | the shuffle-then-map loop yields exactly the specified randomised session |
| QuizComponent.Flatten | src/components/QuizComponent.jsx:96 | `Object.values(...).flat()` holds exactly the questions that occur in some week |
| QuizComponent.Lookup | src/components/QuizComponent.jsx:98 | a week's list is found exactly when the year has an entry with that key |
| QuizComponent.PoolOf | src/components/QuizComponent.jsx:94-99 | the pool is missing (the code throws) exactly for "all" on a year absent from the data; its definition takes the concatenation of the year's weeks (`Flatten`) for "all" and a week's own list or `[]` otherwise, and `WeekPoolWithinAllPool` relates the two |
| QuizComponent.LookupWithinFlatten | src/components/QuizComponent.jsx:96-98 | a single week's questions occur in the concatenation of all the year's weeks |
| QuizComponent.WeekPoolWithinAllPool | src/components/QuizComponent.jsx:94-99 | any week's pool is a sub-multiset of the "all" pool for the same year |
| QuizComponent.StartRejects | src/components/QuizComponent.jsx:79-89 | the year is rejected exactly when it is not four ASCII digits, the week exactly when it is neither "all" nor one or more digits, and a rejected start changes nothing |
| QuizComponent.StartWithoutQuestions | src/components/QuizComponent.jsx:91-104 | with well-formed input but an empty or missing pool, only `selectedYear` and `selectedWeek` change |
| QuizComponent.StartBegins | src/components/QuizComponent.jsx:106-123 | on a non-empty pool the state holds the randomised pool, index 0, score 0, no selected option and no results, and the quiz screen is live |
| QuizComponent.StartKeepsInvariant | src/components/QuizComponent.jsx:77-124 | every outcome of `startQuiz` keeps the session invariant |
| QuizComponent.StartQuiz | src/components/QuizComponent.jsx:77-124 | performs the checks and setter calls in the code's order and leaves the specified outcome and state |
| QuizComponent.Retry | src/components/QuizComponent.jsx:411 | Retry is `startQuiz` with the session's own year and week |
| QuizComponent.SelectSpec | src/components/QuizComponent.jsx:127 | selecting an option changes only `selectedOption`; the last selection wins; the screen and the invariant are kept |
| QuizComponent.HandleOptionSelect | src/components/QuizComponent.jsx:127 | dispatches the selection of the given option |
| QuizComponent.HandleOptionKeyDown | src/components/QuizComponent.jsx:69-74 | Enter or Space selects the option; any other key changes nothing |
| QuizComponent.NextSpec | src/components/QuizComponent.jsx:130-141 | the score rises by exactly one when the selected option is the current answer and otherwise stays; before the last question the index advances and the selection is cleared; on the last one `showResult` is set and the index and the selection stay |
| QuizComponent.NextKeepsInvariant | src/components/QuizComponent.jsx:130-141 | from the quiz screen, Next keeps the invariant and lands on the next question or, after the last one, on the results |
| QuizComponent.HandleNext | src/components/QuizComponent.jsx:130-141 | scores from the captured state, then advances or shows the results |
| QuizComponent.CountCorrect | src/components/QuizComponent.jsx:131 | the number of right answers is at most the number of questions |
| QuizComponent.PlayScore | src/components/QuizComponent.jsx:127-141 | answering the remaining questions in turn ends on the results with the score raised by the number of right answers and the questions untouched |
| QuizComponent.FullSessionScore | src/components/QuizComponent.jsx:119-141 | a full session from a fresh start scores exactly the number of right answers, at most the number of questions |
| QuizComponent.ScreenOf | src/components/QuizComponent.jsx:147 | the checks at lines 147, 224, 325 and 450 partition the states into four screens: year selection exactly without a truthy year; week selection with a year, no results and no questions; results with a year and `showResult`; the quiz with a year, no results and questions |
| QuizComponent.InitialScreen | src/context/QuizContext.jsx:7-18 | the app opens on year selection in a state satisfying the session invariant |
| QuizComponent.QuizScreenIsSafe | src/components/QuizComponent.jsx:450 | on the quiz screen the current question exists and the score is below the question count |
| QuizComponent.ResultsScreenScore | src/components/QuizComponent.jsx:325 | on the results screen there are questions and `0 <= score <= questions.length` |
| QuizComponent.ToggleDarkModeSpec | src/components/QuizComponent.jsx:144 | toggling flips `darkMode` only, twice is the identity, and the screen and the invariant are kept |
| QuizComponent.ToggleDarkMode | src/components/QuizComponent.jsx:144 | dispatches the negation of the captured `darkMode` |
| QuizComponent.ChooseYearSpec | src/components/QuizComponent.jsx:204-207 | a year button stores any year unchecked; a non-empty year moves from year selection to week selection |
| QuizComponent.ChooseYear | src/components/QuizComponent.jsx:207 | dispatches the given year |
| QuizComponent.WeekScreenHomeSpec | src/components/QuizComponent.jsx:231-234 | Home on week selection clears only the year and lands on year selection |
| QuizComponent.WeekScreenHome | src/components/QuizComponent.jsx:231-234 | dispatches a null year |
| QuizComponent.ResultsHomeSpec | src/components/QuizComponent.jsx:336-341 | Home on the results clears year, week, questions and `showResult`, and lands on year selection |
| QuizComponent.ResultsHome | src/components/QuizComponent.jsx:336-341 | dispatches the four clearing setters in order |
| QuizComponent.ChooseDifferentWeekSpec | src/components/QuizComponent.jsx:419-423 | clears questions and `showResult`, keeps the year, and lands on week selection |
| QuizComponent.ChooseDifferentWeek | src/components/QuizComponent.jsx:419-423 | dispatches the two clearing setters |
| QuizComponent.ChangeYearSpec | src/components/QuizComponent.jsx:431-435 | clears year, questions and `showResult`, and lands on year selection |
| QuizComponent.ChangeYear | src/components/QuizComponent.jsx:431-435 | dispatches the three clearing setters |
| QuizComponent.QuizHomeSpec | src/components/QuizComponent.jsx:459-463 | Home during a quiz clears year, week and questions, and lands on year selection |
| QuizComponent.QuizHome | src/components/QuizComponent.jsx:459-463 | dispatches the three clearing setters |

## Left out

- Rendering: JSX markup, CSS classes, icons, ARIA attributes, `OptionButton.jsx`, and `renderMathContent` with KaTeX. These are presentation only.
- `Math.random` uniformity: the draws are inputs. Nothing is said about probabilities beyond the one-to-one correspondence between draws and orderings.
- The progress percentage and the 70% threshold of the results message: floating-point display logic.
- `src/App.jsx`, the router and `src/index.jsx`. These cover the fetch of the questions file, dark-mode persistence in `localStorage`, `matchMedia`, the cancellation flag and `window.location.reload`. They are I/O and bootstrap code; `isLoading` and `error` are modelled only as reducer fields.
- `alert`, `console.error` and `navigate`: side effects without state. Each alert-and-return path is a distinct `StartOutcome`.
- The `useQuiz` missing-provider throw: React context plumbing.
- NaN and Infinity as `correctAnswerIndex`. Reals are finite here.
- Validation.SanitizeQuestion: a truthy primitive input yields an object with no copied properties. Spreading a string primitive would copy its characters as indexed properties, and that is not modelled.
- QuizComponent.Question: a pool question's `options` is assumed to be an array. Its properties other than `question`, `options` and `correctAnswerIndex` are not carried, though the spread copies them. A non-integer or non-numeric `correctAnswerIndex` is represented as an out-of-range integer, which `indexOf` treats the same way (-1).
- QuizComponent.PoolOf: a week value that is not an array, which `.flat()` would keep as a single element, is not modelled.
- QuizComponent.HandleNext: it requires the current index to be in range. The code would throw otherwise, but the Next button exists only on the quiz screen, where QuizScreenIsSafe proves it.
- QuizComponent.StartQuiz: it requires the draws to fit the pool the inputs select, which is what `Math.random` always provides.
- React's batching of dispatches: each handler's setters apply to the store in call order. Every value a handler reads comes from the state captured when it started.

## Findings

| source | as written | input that shows it | evidently intended | confidence | as-written member | corrected member |
|---|---|---|---|---|---|---|
| src/utils/validation.js:71 | `question.question ? question.question.trim() : ""` calls `trim` on any truthy text, so a number or object as text throws a TypeError and aborts `sanitizeQuestions` | `{question: 42, options: ["A"], correctAnswerIndex: 0}` | a non-string text is normalised to `""` like the non-string options at line 73, and the record is then dropped by validation | not executed | Validation.SanitizeQuestionAsWritten | Validation.SanitizeQuestion |
