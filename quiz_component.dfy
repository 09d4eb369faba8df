/**
 * The session engine of `QuizComponent` (src/components/QuizComponent.jsx): starting a
 * quiz from the year -> week -> questions data, shuffling questions and options,
 * scoring, and the click handlers that move between the four screens.
 *
 * Every handler reads the state as it was when the component last rendered (the values
 * its closure captured) and then calls setters of the context `Store` in order. The
 * model gives each handler a specification function over that snapshot and a method
 * that calls the same setters on the store.
 */
module QuizComponent {
  import opened Wrappers
  import opened QuizContext
  import opened Shuffle
  import Validation

  /**
   * A question of the loaded data. `correctAnswerIndex` is an integer here; a
   * non-integer or non-numeric value behaves like an out-of-range one, since
   * `indexOf` finds neither among the option positions.
   */
  datatype Question = Question(question: string, options: seq<string>, correctAnswerIndex: int)

  /**
   * A question of the running session: the spread of the original question, with
   * `shuffledOptions` added and `correctAnswerIndex` re-pointed into it.
   */
  datatype SessionQuestion = SessionQuestion(
    question: string,
    options: seq<string>,
    shuffledOptions: seq<string>,
    correctAnswerIndex: int)

  /** One week's key and questions, in the order `Object.values` lists them. */
  datatype WeekEntry = WeekEntry(week: string, questions: seq<Question>)

  /** `window.nptelData`: for each year key, its weeks in ascending week order. */
  type Data = map<string, seq<WeekEntry>>

  /** The answer index points at one of the options. */
  predicate IsWellFormed(q: Question) {
    0 <= q.correctAnswerIndex < |q.options|
  }

  /**
   * The question a record that passes `validateQuestion` stands for. The session
   * engine does not call the validator itself; this is the bridge for callers that do.
   */
  function FromValidated(r: Validation.Raw): (q: Question)
    requires Validation.IsValidQuestion(r)
    ensures IsWellFormed(q) && q.options != []
    ensures |q.options| == |r.options.items|
    ensures forall k :: 0 <= k < |q.options| ==> Validation.Str(q.options[k]) == r.options.items[k]
    ensures q.correctAnswerIndex as real == r.index.x
  {
    var items := r.options.items;
    Question(r.text.s, seq(|items|, k requires 0 <= k < |items| => items[k].s), r.index.x.Floor)
  }

  // ---------------------------------------------------------------------------
  // Re-indexing one question's options (lines 107-117)
  // ---------------------------------------------------------------------------

  /** `indices.map((i) => xs[i])`. */
  function Pick<T>(xs: seq<T>, indices: seq<nat>): seq<T>
    requires forall k :: 0 <= k < |indices| ==> indices[k] < |xs|
  {
    seq(|indices|, k requires 0 <= k < |indices| => xs[indices[k]])
  }

  /** `a.indexOf(x)`: the first position holding x, or -1 when there is none. */
  function IndexOf(a: seq<nat>, x: int): (r: int)
    ensures -1 <= r < |a|
    ensures r >= 0 ==> a[r] == x && forall k :: 0 <= k < r ==> a[k] != x
    ensures r == -1 <==> forall k :: 0 <= k < |a| ==> a[k] != x
  {
    if |a| == 0 then -1
    else if a[0] == x then 0
    else
      var r := IndexOf(a[1..], x);
      if r == -1 then -1 else r + 1
  }

  /** The steps never draw a value from outside the list, so every element stays below m. */
  lemma {:induction false} StepsBounded(s: seq<nat>, c: seq<nat>, i: int, m: nat)
    requires i < |s| && DrawsUpTo(c, i)
    requires forall k :: 0 <= k < |s| ==> s[k] < m
    ensures forall k :: 0 <= k < |s| ==> Steps<nat>(s, c, i)[k] < m
    decreases i
  {
    if i > 0 {
      StepsUnfold(s, c, i);
      StepsBounded(Swap<nat>(s, i, c[i]), c, i - 1, m);
    }
  }

  /** `shuffleArray([...options.keys()])` for n options. */
  function ShuffledKeys(n: nat, c: seq<nat>): (r: seq<nat>)
    requires IsChoiceVector(c, n)
    ensures |r| == n && multiset(r) == multiset(Positions(n))
    ensures forall k :: 0 <= k < n ==> r[k] < n
  {
    ShuffledPositionsBounded(n, c);
    Shuffled<nat>(Positions(n), c)
  }

  /** A shuffled list of positions below n holds only positions below n. */
  lemma ShuffledPositionsBounded(n: nat, c: seq<nat>)
    requires IsChoiceVector(c, n)
    ensures forall k :: 0 <= k < n ==> Shuffled<nat>(Positions(n), c)[k] < n
  {
    var p := Positions(n);
    assert forall k :: 0 <= k < n ==> p[k] < n;
    StepsBounded(p, c, n - 1, n);
  }

  /** Picking commutes with a swap. */
  lemma PickSwap<T>(xs: seq<T>, s: seq<nat>, i: nat, j: nat)
    requires i < |s| && j < |s|
    requires forall k :: 0 <= k < |s| ==> s[k] < |xs|
    ensures forall k :: 0 <= k < |s| ==> Swap<nat>(s, i, j)[k] < |xs|
    ensures Pick(xs, Swap<nat>(s, i, j)) == Swap(Pick(xs, s), i, j)
  {
  }

  /** Picking commutes with the shuffle steps. */
  lemma {:induction false} PickSteps<T>(xs: seq<T>, s: seq<nat>, c: seq<nat>, i: int)
    requires i < |s| && DrawsUpTo(c, i)
    requires forall k :: 0 <= k < |s| ==> s[k] < |xs|
    ensures forall k :: 0 <= k < |s| ==> Steps<nat>(s, c, i)[k] < |xs|
    ensures Pick(xs, Steps<nat>(s, c, i)) == Steps(Pick(xs, s), c, i)
    decreases i
  {
    StepsBounded(s, c, i, |xs|);
    if i > 0 {
      StepsUnfold(s, c, i);
      StepsUnfold(Pick(xs, s), c, i);
      PickSwap(xs, s, i, c[i]);
      PickSteps(xs, Swap<nat>(s, i, c[i]), c, i - 1);
    }
  }

  /**
   * Shuffling the option positions and reading the options through them is shuffling
   * the options themselves with the same draws.
   */
  lemma PickShuffledKeys<T>(xs: seq<T>, c: seq<nat>)
    requires IsChoiceVector(c, |xs|)
    ensures Pick(xs, ShuffledKeys(|xs|, c)) == Shuffled(xs, c)
  {
    var n := |xs|;
    assert Pick(xs, Positions(n)) == xs;
    PickSteps(xs, Positions(n), c, n - 1);
  }

  /** A position below n is found among the shuffled positions, and one outside is not. */
  lemma ShuffledKeysIndexOf(n: nat, c: seq<nat>, x: int)
    requires IsChoiceVector(c, n)
    ensures 0 <= x < n ==> 0 <= IndexOf(ShuffledKeys(n, c), x) < n
    ensures 0 <= x < n ==> ShuffledKeys(n, c)[IndexOf(ShuffledKeys(n, c), x)] == x
    ensures !(0 <= x < n) ==> IndexOf(ShuffledKeys(n, c), x) == -1
  {
    var perm := ShuffledKeys(n, c);
    if 0 <= x < n {
      assert Positions(n)[x] == x;
      assert x in multiset(Positions(n));
      assert x in perm;
    }
  }

  /** One element of the `map` at lines 107-117, given the shuffled positions. */
  function Remap(q: Question, perm: seq<nat>): SessionQuestion
    requires forall k :: 0 <= k < |perm| ==> perm[k] < |q.options|
  {
    SessionQuestion(q.question, q.options, Pick(q.options, perm), IndexOf(perm, q.correctAnswerIndex))
  }

  /** The randomised form of q for the draws c of its option shuffle. */
  function Randomized(q: Question, c: seq<nat>): SessionQuestion
    requires IsChoiceVector(c, |q.options|)
  {
    Remap(q, ShuffledKeys(|q.options|, c))
  }

  /**
   * sq is q with its options reordered and the answer index following its option:
   * a well-formed answer index lands on the same option text in range, any other
   * becomes -1.
   */
  predicate Extends(sq: SessionQuestion, q: Question) {
    && sq.question == q.question
    && sq.options == q.options
    && multiset(sq.shuffledOptions) == multiset(q.options)
    && (IsWellFormed(q) ==>
          0 <= sq.correctAnswerIndex < |sq.shuffledOptions|
          && sq.shuffledOptions[sq.correctAnswerIndex] == q.options[q.correctAnswerIndex])
    && (!IsWellFormed(q) ==> sq.correctAnswerIndex == -1)
  }

  /** The option shuffle of one question: a permutation that keeps the answer. */
  lemma RandomizedSpec(q: Question, c: seq<nat>)
    requires IsChoiceVector(c, |q.options|)
    ensures Randomized(q, c).shuffledOptions == Shuffled(q.options, c)
    ensures Extends(Randomized(q, c), q)
  {
    var n := |q.options|;
    PickShuffledKeys(q.options, c);
    ShuffledKeysIndexOf(n, c, q.correctAnswerIndex);
  }

  // ---------------------------------------------------------------------------
  // Randomising the pool (lines 107-117)
  // ---------------------------------------------------------------------------

  /** One vector of draws per question, each fitting that question's options. */
  predicate OptionDrawsFit(qs: seq<Question>, oc: seq<seq<nat>>) {
    |oc| == |qs| && forall k :: 0 <= k < |qs| ==> IsChoiceVector(oc[k], |qs[k].options|)
  }

  /** Draws for the question shuffle and, in the shuffled order, for each option shuffle. */
  predicate DrawsFit(pool: seq<Question>, qc: seq<nat>, oc: seq<seq<nat>>) {
    IsChoiceVector(qc, |pool|) && OptionDrawsFit(Shuffled(pool, qc), oc)
  }

  /** `shuffleArray(pool).map(...)`. */
  function Randomize(pool: seq<Question>, qc: seq<nat>, oc: seq<seq<nat>>): seq<SessionQuestion>
    requires DrawsFit(pool, qc, oc)
  {
    var order := Shuffled(pool, qc);
    seq(|order|, k requires 0 <= k < |order| => Randomized(order[k], oc[k]))
  }

  /**
   * The session questions are a permutation of the pool, each extended with its
   * shuffled options and re-pointed answer.
   */
  lemma RandomizeSpec(pool: seq<Question>, qc: seq<nat>, oc: seq<seq<nat>>)
    requires DrawsFit(pool, qc, oc)
    ensures multiset(Shuffled(pool, qc)) == multiset(pool)
    ensures |Randomize(pool, qc, oc)| == |pool|
    ensures forall k :: 0 <= k < |pool| ==> Extends(Randomize(pool, qc, oc)[k], Shuffled(pool, qc)[k])
  {
    var order := Shuffled(pool, qc);
    forall k | 0 <= k < |pool|
      ensures Extends(Randomize(pool, qc, oc)[k], order[k])
    {
      RandomizedSpec(order[k], oc[k]);
    }
  }

  /** sq carries the options of record r, and its answer index names the option r marked correct. */
  predicate AnswersAsRecord(sq: SessionQuestion, r: Validation.Raw)
    requires Validation.IsValidQuestion(r)
  {
    && sq.options == FromValidated(r).options
    && 0 <= sq.correctAnswerIndex < |sq.shuffledOptions|
    && Validation.Str(sq.shuffledOptions[sq.correctAnswerIndex]) == r.options.items[r.index.x.Floor]
  }

  /** Randomising the question of a validated record keeps the record's answer. */
  lemma ExtendsValidated(sq: SessionQuestion, r: Validation.Raw)
    requires Validation.IsValidQuestion(r) && Extends(sq, FromValidated(r))
    ensures AnswersAsRecord(sq, r)
  {
    var q := FromValidated(r);
    assert Validation.Str(q.options[q.correctAnswerIndex]) == r.options.items[q.correctAnswerIndex];
  }

  /**
   * A pool of questions built from records that pass `validateQuestion` randomises into a
   * session where every answer index is in range and names, among the shuffled options,
   * the option its record marked correct.
   */
  lemma ValidatedPoolKeepsAnswers(records: seq<Validation.Raw>, pool: seq<Question>, qc: seq<nat>, oc: seq<seq<nat>>)
    requires |pool| == |records|
    requires forall k :: 0 <= k < |records| ==> Validation.IsValidQuestion(records[k]) && pool[k] == FromValidated(records[k])
    requires DrawsFit(pool, qc, oc)
    ensures forall k :: 0 <= k < |pool| ==>
      exists j :: 0 <= j < |records| && Validation.IsValidQuestion(records[j]) && AnswersAsRecord(Randomize(pool, qc, oc)[k], records[j])
  {
    RandomizeSpec(pool, qc, oc);
    var order := Shuffled(pool, qc);
    var session := Randomize(pool, qc, oc);
    forall k | 0 <= k < |pool|
      ensures exists j :: 0 <= j < |records| && Validation.IsValidQuestion(records[j]) && AnswersAsRecord(session[k], records[j])
    {
      assert order[k] in multiset(pool);
      var j :| 0 <= j < |pool| && pool[j] == order[k];
      ExtendsValidated(session[k], records[j]);
      assert 0 <= j < |records| && Validation.IsValidQuestion(records[j]) && AnswersAsRecord(session[k], records[j]);
    }
  }

  // ---------------------------------------------------------------------------
  // Input checks and the pool (lines 79-99)
  // ---------------------------------------------------------------------------

  /** `\d` in a JavaScript regular expression without the `u` flag. */
  predicate IsDigit(c: char) {
    '0' <= c <= '9'
  }

  predicate AllDigits(s: string) {
    forall k :: 0 <= k < |s| ==> IsDigit(s[k])
  }

  /** `year` is truthy and its string matches `/^\d{4}$/`. */
  predicate IsYearFormat(year: Option<string>) {
    year.Some? && |year.value| == 4 && AllDigits(year.value)
  }

  /** `week` is `"all"`, or truthy and its string matches `/^\d+$/`. */
  predicate IsWeekSelector(week: Option<string>) {
    week == Some("all") || (week.Some? && |week.value| >= 1 && AllDigits(week.value))
  }

  /** `Object.values(weeks).flat()`. */
  function Flatten(weeks: seq<WeekEntry>): (r: seq<Question>)
    ensures |weeks| == 0 ==> r == []
    ensures forall q :: q in r <==> exists k :: 0 <= k < |weeks| && q in weeks[k].questions
  {
    if |weeks| == 0 then [] else weeks[0].questions + Flatten(weeks[1..])
  }

  /** `weeks[week]`: the questions under that key, if there is one. */
  function Lookup(weeks: seq<WeekEntry>, week: string): (r: Option<seq<Question>>)
    ensures r.Some? <==> exists k :: 0 <= k < |weeks| && weeks[k].week == week
  {
    if |weeks| == 0 then None
    else if weeks[0].week == week then Some(weeks[0].questions)
    else
      var r := Lookup(weeks[1..], week);
      assert forall k :: 1 <= k < |weeks| ==> weeks[k] == weeks[1..][k - 1];
      r
  }

  /** A single week's questions are among the questions of all weeks, as often as they occur there. */
  lemma {:induction false} LookupWithinFlatten(weeks: seq<WeekEntry>, week: string)
    requires Lookup(weeks, week).Some?
    ensures multiset(Lookup(weeks, week).value) <= multiset(Flatten(weeks))
  {
    if weeks[0].week != week {
      LookupWithinFlatten(weeks[1..], week);
    }
  }

  /**
   * `selectedQuestions` for a year and week that passed the checks: None where
   * `Object.values(window.nptelData[year])` throws on a missing year.
   */
  function PoolOf(data: Data, year: string, week: string): (r: Option<seq<Question>>)
    ensures r.None? <==> week == "all" && year !in data
  {
    if week == "all" then
      if year in data then Some(Flatten(data[year])) else None
    else if year in data && Lookup(data[year], week).Some? then Lookup(data[year], week)
    else Some([])
  }

  /** Any single week's pool draws only on the "all" pool of the same year. */
  lemma WeekPoolWithinAllPool(data: Data, year: string, week: string)
    requires year in data && week != "all"
    ensures multiset(PoolOf(data, year, week).value) <= multiset(PoolOf(data, year, "all").value)
  {
    if Lookup(data[year], week).Some? {
      LookupWithinFlatten(data[year], week);
    }
  }

  // ---------------------------------------------------------------------------
  // Screens and the session invariant (lines 147, 224, 325, 450)
  // ---------------------------------------------------------------------------

  datatype Screen = YearSelection | WeekSelection | Results | QuizScreen

  /** `!selectedYear` is false. */
  predicate HasYear(s: State<SessionQuestion>) {
    s.selectedYear.Some? && s.selectedYear.value != ""
  }

  /** The screen the component renders, by its checks in order. */
  function ScreenOf(s: State<SessionQuestion>): (r: Screen)
    ensures r == YearSelection <==> !HasYear(s)
    ensures r == WeekSelection <==> HasYear(s) && !s.showResult && s.questions == []
    ensures r == Results <==> HasYear(s) && s.showResult
    ensures r == QuizScreen <==> HasYear(s) && !s.showResult && s.questions != []
  {
    if !HasYear(s) then YearSelection
    else if !s.showResult && |s.questions| == 0 then WeekSelection
    else if s.showResult then Results
    else QuizScreen
  }

  /**
   * What every handler keeps: the index is in range and the score is at most the
   * number of questions answered while a session holds questions; results are shown
   * only for a non-empty session; without a year no session is held.
   */
  predicate SessionInvariant(s: State<SessionQuestion>) {
    && 0 <= s.score
    && (|s.questions| > 0 ==>
          0 <= s.currentQuestionIndex < |s.questions|
          && s.score <= s.currentQuestionIndex + (if s.showResult then 1 else 0))
    && (s.showResult ==> |s.questions| > 0)
    && (!HasYear(s) ==> s.questions == [] && !s.showResult)
  }

  /** The app opens on year selection, in a state that satisfies the invariant. */
  lemma InitialScreen()
    ensures ScreenOf(InitialState()) == YearSelection
    ensures SessionInvariant(InitialState())
  {
  }

  /** On the quiz screen the current question exists and the score is below the count. */
  lemma QuizScreenIsSafe(s: State<SessionQuestion>)
    requires SessionInvariant(s) && ScreenOf(s) == QuizScreen
    ensures 0 <= s.currentQuestionIndex < |s.questions|
    ensures 0 <= s.score <= s.currentQuestionIndex < |s.questions|
  {
  }

  /** On the results screen the score is between 0 and the number of questions. */
  lemma ResultsScreenScore(s: State<SessionQuestion>)
    requires SessionInvariant(s) && ScreenOf(s) == Results
    ensures |s.questions| > 0 && 0 <= s.score <= |s.questions|
  {
  }

  // ---------------------------------------------------------------------------
  // startQuiz (lines 77-124)
  // ---------------------------------------------------------------------------

  datatype StartOutcome =
    | RejectedYear   // the year check alerts and returns
    | RejectedWeek   // the week check alerts and returns
    | Crashed        // `Object.values(undefined)` throws a TypeError
    | NoQuestions    // the empty-pool alert
    | Started

  /** The draws fit whatever pool the inputs select. */
  predicate StartDrawsFit(data: Data, year: Option<string>, week: Option<string>, qc: seq<nat>, oc: seq<seq<nat>>) {
    IsYearFormat(year) && IsWeekSelector(week) && PoolOf(data, year.value, week.value).Some?
    ==> DrawsFit(PoolOf(data, year.value, week.value).value, qc, oc)
  }

  /** The state after the year and week setters. */
  function WithSelection(s: State<SessionQuestion>, year: Option<string>, week: Option<string>): State<SessionQuestion> {
    Reduce(Reduce(s, Action.SetSelectedYear(year)), Action.SetSelectedWeek(week))
  }

  /** The state after the five setters that begin a session. */
  function Begin(s: State<SessionQuestion>, questions: seq<SessionQuestion>): State<SessionQuestion> {
    var s1 := Reduce(s, Action.SetQuestions(questions));
    var s2 := Reduce(s1, Action.SetCurrentQuestionIndex(0));
    var s3 := Reduce(s2, Action.SetScore(0));
    var s4 := Reduce(s3, Action.SetSelectedOption(None));
    Reduce(s4, Action.SetShowResult(false))
  }

  /** `startQuiz(year, week)` from the snapshot s: its outcome and the state it leaves. */
  function AfterStart(s: State<SessionQuestion>, data: Data, year: Option<string>, week: Option<string>,
                      qc: seq<nat>, oc: seq<seq<nat>>): (StartOutcome, State<SessionQuestion>)
    requires StartDrawsFit(data, year, week, qc, oc)
  {
    if !IsYearFormat(year) then (RejectedYear, s)
    else if !IsWeekSelector(week) then (RejectedWeek, s)
    else
      var chosen := WithSelection(s, year, week);
      var pool := PoolOf(data, year.value, week.value);
      if pool.None? then (Crashed, chosen)
      else if |pool.value| == 0 then (NoQuestions, chosen)
      else (Started, Begin(chosen, Randomize(pool.value, qc, oc)))
  }

  /** Malformed input changes nothing. */
  lemma StartRejects(s: State<SessionQuestion>, data: Data, year: Option<string>, week: Option<string>,
                     qc: seq<nat>, oc: seq<seq<nat>>)
    requires StartDrawsFit(data, year, week, qc, oc)
    ensures !IsYearFormat(year) <==> AfterStart(s, data, year, week, qc, oc).0 == RejectedYear
    ensures IsYearFormat(year) && !IsWeekSelector(week) <==> AfterStart(s, data, year, week, qc, oc).0 == RejectedWeek
    ensures !IsYearFormat(year) || !IsWeekSelector(week) ==> AfterStart(s, data, year, week, qc, oc).1 == s
  {
  }

  /**
   * With well-formed input but nothing to ask (an empty pool, or "all" for a year
   * missing from the data), only the year and the week have changed.
   */
  lemma StartWithoutQuestions(s: State<SessionQuestion>, data: Data, year: Option<string>, week: Option<string>,
                              qc: seq<nat>, oc: seq<seq<nat>>)
    requires StartDrawsFit(data, year, week, qc, oc)
    requires IsYearFormat(year) && IsWeekSelector(week)
    requires PoolOf(data, year.value, week.value) != Some([]) ==> PoolOf(data, year.value, week.value).None?
    ensures AfterStart(s, data, year, week, qc, oc).0 == (if week.value == "all" && year.value !in data then Crashed else NoQuestions)
    ensures AfterStart(s, data, year, week, qc, oc).1 == s.(selectedYear := year, selectedWeek := week)
  {
  }

  /**
   * On a non-empty pool the session begins: the shuffled and re-indexed pool, at the
   * first question, score 0, no option chosen, on the quiz screen.
   */
  lemma StartBegins(s: State<SessionQuestion>, data: Data, year: Option<string>, week: Option<string>,
                    qc: seq<nat>, oc: seq<seq<nat>>)
    requires StartDrawsFit(data, year, week, qc, oc)
    requires IsYearFormat(year) && IsWeekSelector(week)
    requires PoolOf(data, year.value, week.value).Some? && PoolOf(data, year.value, week.value).value != []
    ensures AfterStart(s, data, year, week, qc, oc).0 == Started
    ensures AfterStart(s, data, year, week, qc, oc).1
         == s.(selectedYear := year, selectedWeek := week,
               questions := Randomize(PoolOf(data, year.value, week.value).value, qc, oc),
               currentQuestionIndex := 0, score := 0, selectedOption := None, showResult := false)
    ensures ScreenOf(AfterStart(s, data, year, week, qc, oc).1) == QuizScreen
    ensures SessionInvariant(AfterStart(s, data, year, week, qc, oc).1)
  {
    var pool := PoolOf(data, year.value, week.value).value;
    RandomizeSpec(pool, qc, oc);
  }

  /** Every outcome of `startQuiz` keeps the invariant. */
  lemma StartKeepsInvariant(s: State<SessionQuestion>, data: Data, year: Option<string>, week: Option<string>,
                            qc: seq<nat>, oc: seq<seq<nat>>)
    requires StartDrawsFit(data, year, week, qc, oc)
    requires SessionInvariant(s)
    ensures SessionInvariant(AfterStart(s, data, year, week, qc, oc).1)
  {
    if IsYearFormat(year) && IsWeekSelector(week) {
      var pool := PoolOf(data, year.value, week.value);
      if pool.Some? && pool.value != [] {
        StartBegins(s, data, year, week, qc, oc);
      }
    }
  }

  // ---------------------------------------------------------------------------
  // Answering (lines 69-74, 127, 130-141)
  // ---------------------------------------------------------------------------

  /** `handleOptionSelect(index)`. */
  function AfterSelect(s: State<SessionQuestion>, index: nat): State<SessionQuestion> {
    Reduce(s, Action.SetSelectedOption(Some(index)))
  }

  /** Choosing an option touches nothing but the choice, and the last choice is the one that counts. */
  lemma SelectSpec(s: State<SessionQuestion>, index: nat, other: nat)
    ensures AfterSelect(s, index) == s.(selectedOption := Some(index))
    ensures AfterSelect(AfterSelect(s, other), index) == AfterSelect(s, index)
    ensures ScreenOf(AfterSelect(s, index)) == ScreenOf(s)
    ensures SessionInvariant(s) ==> SessionInvariant(AfterSelect(s, index))
  {
  }

  /** `handleOptionKeyDown(index, event)`: Enter or Space selects, any other key does nothing. */
  function AfterKeyDown(s: State<SessionQuestion>, index: nat, key: string): State<SessionQuestion> {
    if key == "Enter" || key == " " then AfterSelect(s, index) else s
  }

  /** The answer to the current question is the chosen option. */
  predicate AnsweredRight(s: State<SessionQuestion>)
    requires 0 <= s.currentQuestionIndex < |s.questions|
  {
    s.selectedOption == Some(s.questions[s.currentQuestionIndex].correctAnswerIndex)
  }

  /** `handleNext()` from the snapshot s. */
  function AfterNext(s: State<SessionQuestion>): State<SessionQuestion>
    requires 0 <= s.currentQuestionIndex < |s.questions|
  {
    var scored := if AnsweredRight(s) then Reduce(s, Action.SetScore(s.score + 1)) else s;
    if s.currentQuestionIndex < |s.questions| - 1 then
      Reduce(Reduce(scored, Action.SetCurrentQuestionIndex(s.currentQuestionIndex + 1)), Action.SetSelectedOption(None))
    else
      Reduce(scored, Action.SetShowResult(true))
  }

  /**
   * The score rises by one exactly when the chosen option is the current answer;
   * before the last question the index advances and the choice is cleared; on the last
   * one the results are shown, and the index and the choice stay.
   */
  lemma NextSpec(s: State<SessionQuestion>)
    requires 0 <= s.currentQuestionIndex < |s.questions|
    ensures AfterNext(s).score == s.score + (if AnsweredRight(s) then 1 else 0)
    ensures s.currentQuestionIndex < |s.questions| - 1 ==>
              AfterNext(s) == s.(score := AfterNext(s).score, currentQuestionIndex := s.currentQuestionIndex + 1,
                                 selectedOption := None)
    ensures s.currentQuestionIndex == |s.questions| - 1 ==>
              AfterNext(s) == s.(score := AfterNext(s).score, showResult := true)
  {
  }

  /** From the quiz screen, Next keeps the invariant and lands on the next question or on the results. */
  lemma NextKeepsInvariant(s: State<SessionQuestion>)
    requires SessionInvariant(s) && ScreenOf(s) == QuizScreen
    ensures 0 <= s.currentQuestionIndex < |s.questions|
    ensures SessionInvariant(AfterNext(s))
    ensures ScreenOf(AfterNext(s)) == if s.currentQuestionIndex == |s.questions| - 1 then Results else QuizScreen
  {
    NextSpec(s);
  }

  /** The number of positions k where answers[k] is the answer of qs[k]. */
  function CountCorrect(qs: seq<SessionQuestion>, answers: seq<nat>): (r: nat)
    requires |qs| == |answers|
    ensures r <= |qs|
  {
    if |qs| == 0 then 0
    else (if answers[0] == qs[0].correctAnswerIndex then 1 else 0) + CountCorrect(qs[1..], answers[1..])
  }

  /** Choosing answers[k] and pressing Next, for each remaining question in turn. */
  function Play(s: State<SessionQuestion>, answers: seq<nat>): State<SessionQuestion>
    requires 0 <= s.currentQuestionIndex < |s.questions|
    requires |answers| == |s.questions| - s.currentQuestionIndex
    decreases |answers|
  {
    var t := AfterNext(AfterSelect(s, answers[0]));
    if |answers| == 1 then t else Play(t, answers[1..])
  }

  /**
   * Playing the rest of a session ends on the results with the score raised by the
   * number of right answers; the questions are never touched.
   */
  lemma {:induction false} PlayScore(s: State<SessionQuestion>, answers: seq<nat>)
    requires 0 <= s.currentQuestionIndex < |s.questions|
    requires |answers| == |s.questions| - s.currentQuestionIndex
    ensures Play(s, answers).score == s.score + CountCorrect(s.questions[s.currentQuestionIndex..], answers)
    ensures Play(s, answers).showResult
    ensures Play(s, answers).questions == s.questions
    ensures Play(s, answers).currentQuestionIndex == |s.questions| - 1
    decreases |answers|
  {
    var t := AfterNext(AfterSelect(s, answers[0]));
    NextSpec(AfterSelect(s, answers[0]));
    var rest := s.questions[s.currentQuestionIndex..];
    if |answers| > 1 {
      PlayScore(t, answers[1..]);
      assert rest[1..] == s.questions[t.currentQuestionIndex..];
    }
  }

  /** A full session from the first question scores exactly the right answers. */
  lemma FullSessionScore(s: State<SessionQuestion>, answers: seq<nat>)
    requires s.currentQuestionIndex == 0 && s.score == 0 && |s.questions| > 0
    requires |answers| == |s.questions|
    ensures Play(s, answers).score == CountCorrect(s.questions, answers) <= |s.questions|
    ensures Play(s, answers).showResult
  {
    PlayScore(s, answers);
    assert s.questions[0..] == s.questions;
  }

  // ---------------------------------------------------------------------------
  // The other handlers (lines 144, 207, 231-234, 336-341, 419-423, 431-435, 459-463)
  // ---------------------------------------------------------------------------

  /** `toggleDarkMode()`. */
  function AfterToggleDarkMode(s: State<SessionQuestion>): State<SessionQuestion> {
    Reduce(s, Action.SetDarkMode(!s.darkMode))
  }

  /** A year button: the year as given, without the format check. */
  function AfterChooseYear(s: State<SessionQuestion>, year: string): State<SessionQuestion> {
    Reduce(s, Action.SetSelectedYear(Some(year)))
  }

  /** Home on the week selection screen. */
  function AfterWeekScreenHome(s: State<SessionQuestion>): State<SessionQuestion> {
    Reduce(s, Action.SetSelectedYear(None))
  }

  /** Home on the results screen. */
  function AfterResultsHome(s: State<SessionQuestion>): State<SessionQuestion> {
    var s1 := Reduce(s, Action.SetSelectedYear(None));
    var s2 := Reduce(s1, Action.SetSelectedWeek(None));
    var s3 := Reduce(s2, Action.SetQuestions([]));
    Reduce(s3, Action.SetShowResult(false))
  }

  /** "Choose Different Week" on the results screen. */
  function AfterChooseDifferentWeek(s: State<SessionQuestion>): State<SessionQuestion> {
    Reduce(Reduce(s, Action.SetQuestions([])), Action.SetShowResult(false))
  }

  /** "Change Year" on the results screen. */
  function AfterChangeYear(s: State<SessionQuestion>): State<SessionQuestion> {
    var s1 := Reduce(s, Action.SetSelectedYear(None));
    var s2 := Reduce(s1, Action.SetQuestions([]));
    Reduce(s2, Action.SetShowResult(false))
  }

  /** Home on the quiz screen. */
  function AfterQuizHome(s: State<SessionQuestion>): State<SessionQuestion> {
    var s1 := Reduce(s, Action.SetSelectedYear(None));
    var s2 := Reduce(s1, Action.SetSelectedWeek(None));
    Reduce(s2, Action.SetQuestions([]))
  }

  /** Toggling dark mode flips that flag only, so toggling twice restores the state. */
  lemma ToggleDarkModeSpec(s: State<SessionQuestion>)
    ensures AfterToggleDarkMode(s) == s.(darkMode := !s.darkMode)
    ensures AfterToggleDarkMode(AfterToggleDarkMode(s)) == s
    ensures ScreenOf(AfterToggleDarkMode(s)) == ScreenOf(s)
    ensures SessionInvariant(s) ==> SessionInvariant(AfterToggleDarkMode(s))
  {
  }

  /**
   * A year button stores any year it is given; a non-empty one moves from year
   * selection to week selection.
   */
  lemma ChooseYearSpec(s: State<SessionQuestion>, year: string)
    requires SessionInvariant(s) && ScreenOf(s) == YearSelection
    ensures AfterChooseYear(s, year) == s.(selectedYear := Some(year))
    ensures SessionInvariant(AfterChooseYear(s, year))
    ensures ScreenOf(AfterChooseYear(s, year)) == if year == "" then YearSelection else WeekSelection
  {
  }

  /** Home from week selection forgets the year only and returns to year selection. */
  lemma WeekScreenHomeSpec(s: State<SessionQuestion>)
    requires SessionInvariant(s) && ScreenOf(s) == WeekSelection
    ensures AfterWeekScreenHome(s) == s.(selectedYear := None)
    ensures SessionInvariant(AfterWeekScreenHome(s))
    ensures ScreenOf(AfterWeekScreenHome(s)) == YearSelection
  {
  }

  /** Home from the results clears year, week, questions and results. */
  lemma ResultsHomeSpec(s: State<SessionQuestion>)
    requires SessionInvariant(s)
    ensures AfterResultsHome(s) == s.(selectedYear := None, selectedWeek := None, questions := [], showResult := false)
    ensures SessionInvariant(AfterResultsHome(s))
    ensures ScreenOf(AfterResultsHome(s)) == YearSelection
  {
  }

  /** "Choose Different Week" keeps the year and week and lands on week selection. */
  lemma ChooseDifferentWeekSpec(s: State<SessionQuestion>)
    requires SessionInvariant(s) && ScreenOf(s) == Results
    ensures AfterChooseDifferentWeek(s) == s.(questions := [], showResult := false)
    ensures SessionInvariant(AfterChooseDifferentWeek(s))
    ensures ScreenOf(AfterChooseDifferentWeek(s)) == WeekSelection
  {
  }

  /** "Change Year" clears the year, the questions and the results, and keeps the week. */
  lemma ChangeYearSpec(s: State<SessionQuestion>)
    requires SessionInvariant(s)
    ensures AfterChangeYear(s) == s.(selectedYear := None, questions := [], showResult := false)
    ensures SessionInvariant(AfterChangeYear(s))
    ensures ScreenOf(AfterChangeYear(s)) == YearSelection
  {
  }

  /** Home during a quiz clears year, week and questions; the results flag is already false there. */
  lemma QuizHomeSpec(s: State<SessionQuestion>)
    requires SessionInvariant(s) && ScreenOf(s) == QuizScreen
    ensures AfterQuizHome(s) == s.(selectedYear := None, selectedWeek := None, questions := [])
    ensures SessionInvariant(AfterQuizHome(s))
    ensures ScreenOf(AfterQuizHome(s)) == YearSelection
  {
  }

  // ---------------------------------------------------------------------------
  // The handlers, acting on the context store
  // ---------------------------------------------------------------------------

  /**
   * `shuffleArray(selectedQuestions).map(...)`: the questions in shuffled order, each
   * with its options shuffled and its answer index looked up among the shuffled
   * positions.
   */
  method RandomizePool(pool: seq<Question>, qc: seq<nat>, oc: seq<seq<nat>>) returns (randomized: seq<SessionQuestion>)
    requires DrawsFit(pool, qc, oc)
    ensures randomized == Randomize(pool, qc, oc)
  {
    var selected := new Question[|pool|](k requires 0 <= k < |pool| => pool[k]);
    assert selected[..] == pool;
    var order := ShuffleArray(selected, qc);
    var shuffledPool := order[..];
    randomized := [];
    var k := 0;
    while k < |shuffledPool|
      invariant 0 <= k <= |shuffledPool|
      invariant |randomized| == k
      invariant forall m :: 0 <= m < k ==> randomized[m] == Randomized(shuffledPool[m], oc[m])
    {
      var sq := RandomizeQuestion(shuffledPool[k], oc[k]);
      randomized := randomized + [sq];
      k := k + 1;
    }
  }

  /** The callback of that `map`: shuffles the option positions and re-points the answer. */
  method RandomizeQuestion(q: Question, c: seq<nat>) returns (sq: SessionQuestion)
    requires IsChoiceVector(c, |q.options|)
    ensures sq == Randomized(q, c)
  {
    var indices := new nat[|q.options|](m => m);
    assert indices[..] == Positions(|q.options|);
    var keys := ShuffleArray(indices, c);
    var shuffledIndices := keys[..];
    assert shuffledIndices == ShuffledKeys(|q.options|, c);
    var shuffledOptions := Pick(q.options, shuffledIndices);
    var newCorrectIndex := IndexOf(shuffledIndices, q.correctAnswerIndex);
    sq := SessionQuestion(q.question, q.options, shuffledOptions, newCorrectIndex);
  }

  /**
   * `startQuiz(year, week)`. `qc` stands for the `Math.random` draws of the question
   * shuffle and `oc[k]` for those of the option shuffle of the k-th shuffled question.
   */
  method StartQuiz(store: Store<SessionQuestion>, data: Data, year: Option<string>, week: Option<string>,
                   qc: seq<nat>, oc: seq<seq<nat>>) returns (outcome: StartOutcome)
    requires StartDrawsFit(data, year, week, qc, oc)
    modifies store
    ensures (outcome, store.state) == AfterStart(old(store.state), data, year, week, qc, oc)
  {
    if !IsYearFormat(year) {
      return RejectedYear;
    }
    if !IsWeekSelector(week) {
      return RejectedWeek;
    }
    store.SetSelectedYear(year);
    store.SetSelectedWeek(week);
    var pool: seq<Question>;
    if week.value == "all" {
      if year.value !in data {
        return Crashed;
      }
      pool := Flatten(data[year.value]);
    } else {
      var found := if year.value in data then Lookup(data[year.value], week.value) else None;
      pool := if found.Some? then found.value else [];
    }
    if |pool| == 0 {
      return NoQuestions;
    }
    assert pool == PoolOf(data, year.value, week.value).value;
    var randomized := RandomizePool(pool, qc, oc);
    store.SetQuestions(randomized);
    store.SetCurrentQuestionIndex(0);
    store.SetScore(0);
    store.SetSelectedOption(None);
    store.SetShowResult(false);
    return Started;
  }

  /** `handleOptionSelect(index)`. */
  method HandleOptionSelect(store: Store<SessionQuestion>, index: nat)
    modifies store
    ensures store.state == AfterSelect(old(store.state), index)
  {
    store.SetSelectedOption(Some(index));
  }

  /** `handleOptionKeyDown(index, event)`, with the event's key. */
  method HandleOptionKeyDown(store: Store<SessionQuestion>, index: nat, key: string)
    modifies store
    ensures store.state == AfterKeyDown(old(store.state), index, key)
  {
    if key == "Enter" || key == " " {
      store.SetSelectedOption(Some(index));
    }
  }

  /**
   * `handleNext()`. It reads `questions[currentQuestionIndex]`, which exists whenever
   * the Next button is on screen (QuizScreenIsSafe).
   */
  method HandleNext(store: Store<SessionQuestion>)
    requires 0 <= store.state.currentQuestionIndex < |store.state.questions|
    modifies store
    ensures store.state == AfterNext(old(store.state))
  {
    var snapshot := store.state;
    if snapshot.selectedOption == Some(snapshot.questions[snapshot.currentQuestionIndex].correctAnswerIndex) {
      store.SetScore(snapshot.score + 1);
    }
    if snapshot.currentQuestionIndex < |snapshot.questions| - 1 {
      store.SetCurrentQuestionIndex(snapshot.currentQuestionIndex + 1);
      store.SetSelectedOption(None);
    } else {
      store.SetShowResult(true);
    }
  }

  /** `toggleDarkMode()`. */
  method ToggleDarkMode(store: Store<SessionQuestion>)
    modifies store
    ensures store.state == AfterToggleDarkMode(old(store.state))
  {
    store.SetDarkMode(!store.state.darkMode);
  }

  /** A year button's click. */
  method ChooseYear(store: Store<SessionQuestion>, year: string)
    modifies store
    ensures store.state == AfterChooseYear(old(store.state), year)
  {
    store.SetSelectedYear(Some(year));
  }

  /** Home on the week selection screen. */
  method WeekScreenHome(store: Store<SessionQuestion>)
    modifies store
    ensures store.state == AfterWeekScreenHome(old(store.state))
  {
    store.SetSelectedYear(None);
  }

  /** Home on the results screen. */
  method ResultsHome(store: Store<SessionQuestion>)
    modifies store
    ensures store.state == AfterResultsHome(old(store.state))
  {
    store.SetSelectedYear(None);
    store.SetSelectedWeek(None);
    store.SetQuestions([]);
    store.SetShowResult(false);
  }

  /** Retry on the results screen: `startQuiz` with the year and week of the session. */
  method Retry(store: Store<SessionQuestion>, data: Data, qc: seq<nat>, oc: seq<seq<nat>>) returns (outcome: StartOutcome)
    requires StartDrawsFit(data, store.state.selectedYear, store.state.selectedWeek, qc, oc)
    modifies store
    ensures (outcome, store.state)
         == AfterStart(old(store.state), data, old(store.state.selectedYear), old(store.state.selectedWeek), qc, oc)
  {
    var snapshot := store.state;
    outcome := StartQuiz(store, data, snapshot.selectedYear, snapshot.selectedWeek, qc, oc);
  }

  /** "Choose Different Week" on the results screen. */
  method ChooseDifferentWeek(store: Store<SessionQuestion>)
    modifies store
    ensures store.state == AfterChooseDifferentWeek(old(store.state))
  {
    store.SetQuestions([]);
    store.SetShowResult(false);
  }

  /** "Change Year" on the results screen. */
  method ChangeYear(store: Store<SessionQuestion>)
    modifies store
    ensures store.state == AfterChangeYear(old(store.state))
  {
    store.SetSelectedYear(None);
    store.SetQuestions([]);
    store.SetShowResult(false);
  }

  /** Home on the quiz screen. */
  method QuizHome(store: Store<SessionQuestion>)
    modifies store
    ensures store.state == AfterQuizHome(old(store.state))
  {
    store.SetSelectedYear(None);
    store.SetSelectedWeek(None);
    store.SetQuestions([]);
  }
}
