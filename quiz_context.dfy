/**
 * The quiz session store (src/context/QuizContext.jsx): a ten-field state record, the
 * reducer `quizReducer`, and the provider's setter wrappers, each of which dispatches
 * one action. The record is generic in the question type `Q`: the reducer only stores
 * questions.
 */
module QuizContext {
  import opened Wrappers

  datatype State<Q> = State(
    questions: seq<Q>,
    currentQuestionIndex: int,
    score: int,
    selectedOption: Option<int>,
    showResult: bool,
    isLoading: bool,
    error: Option<string>,
    selectedYear: Option<string>,
    selectedWeek: Option<string>,
    darkMode: bool)

  /** `initialState`: no session, no year or week chosen, loading, light mode. */
  function InitialState<Q>(): (r: State<Q>)
    ensures r.questions == [] && r.currentQuestionIndex == 0 && r.score == 0
    ensures r.selectedOption.None? && !r.showResult && r.error.None?
    ensures r.isLoading && r.selectedYear.None? && r.selectedWeek.None? && !r.darkMode
  {
    State([], 0, 0, None, false, true, None, None, None, false)
  }

  /**
   * An action `{ type, payload }`. `Unknown` stands for any `type` other than the eleven
   * names the reducer handles, so it cannot spell one of them; `ResetQuiz` carries no
   * payload.
   */
  datatype Action<Q> =
    | SetQuestions(questions: seq<Q>)
    | SetCurrentQuestionIndex(index: int)
    | SetScore(score: int)
    | SetSelectedOption(option: Option<int>)
    | SetShowResult(showResult: bool)
    | SetLoading(isLoading: bool)
    | SetError(error: Option<string>)
    | SetSelectedYear(year: Option<string>)
    | SetSelectedWeek(week: Option<string>)
    | SetDarkMode(darkMode: bool)
    | ResetQuiz
    | Unknown

  // ---------------------------------------------------------------------------
  // A field-by-field view of the record, to state what an action leaves alone
  // ---------------------------------------------------------------------------

  datatype Field =
    | Questions | CurrentQuestionIndex | Score | SelectedOption | ShowResult
    | IsLoading | Error | SelectedYear | SelectedWeek | DarkMode

  datatype Value<Q> =
    | QuestionsValue(questions: seq<Q>)
    | NumberValue(n: int)
    | IndexValue(option: Option<int>)
    | FlagValue(flag: bool)
    | TextValue(text: Option<string>)

  function Get<Q>(s: State<Q>, f: Field): Value<Q> {
    match f
    case Questions => QuestionsValue(s.questions)
    case CurrentQuestionIndex => NumberValue(s.currentQuestionIndex)
    case Score => NumberValue(s.score)
    case SelectedOption => IndexValue(s.selectedOption)
    case ShowResult => FlagValue(s.showResult)
    case IsLoading => FlagValue(s.isLoading)
    case Error => TextValue(s.error)
    case SelectedYear => TextValue(s.selectedYear)
    case SelectedWeek => TextValue(s.selectedWeek)
    case DarkMode => FlagValue(s.darkMode)
  }

  /** Two records that agree on every field are the same record. */
  lemma {:induction false} Extensionality<Q>(s: State<Q>, t: State<Q>)
    requires forall f :: Get(s, f) == Get(t, f)
    ensures s == t
  {
    assert Get(s, Questions) == Get(t, Questions);
    assert Get(s, CurrentQuestionIndex) == Get(t, CurrentQuestionIndex);
    assert Get(s, Score) == Get(t, Score);
    assert Get(s, SelectedOption) == Get(t, SelectedOption);
    assert Get(s, ShowResult) == Get(t, ShowResult);
    assert Get(s, IsLoading) == Get(t, IsLoading);
    assert Get(s, Error) == Get(t, Error);
    assert Get(s, SelectedYear) == Get(t, SelectedYear);
    assert Get(s, SelectedWeek) == Get(t, SelectedWeek);
    assert Get(s, DarkMode) == Get(t, DarkMode);
  }

  /** The field a `SET_*` action writes; `None` for `RESET_QUIZ` and unknown types. */
  function Target<Q>(a: Action<Q>): Option<Field> {
    match a
    case SetQuestions(_) => Some(Questions)
    case SetCurrentQuestionIndex(_) => Some(CurrentQuestionIndex)
    case SetScore(_) => Some(Score)
    case SetSelectedOption(_) => Some(SelectedOption)
    case SetShowResult(_) => Some(ShowResult)
    case SetLoading(_) => Some(IsLoading)
    case SetError(_) => Some(Error)
    case SetSelectedYear(_) => Some(SelectedYear)
    case SetSelectedWeek(_) => Some(SelectedWeek)
    case SetDarkMode(_) => Some(DarkMode)
    case ResetQuiz => None
    case Unknown => None
  }

  /** The payload of a `SET_*` action, as a field value. */
  function Payload<Q>(a: Action<Q>): Value<Q>
    requires Target(a).Some?
  {
    match a
    case SetQuestions(qs) => QuestionsValue(qs)
    case SetCurrentQuestionIndex(i) => NumberValue(i)
    case SetScore(n) => NumberValue(n)
    case SetSelectedOption(o) => IndexValue(o)
    case SetShowResult(b) => FlagValue(b)
    case SetLoading(b) => FlagValue(b)
    case SetError(e) => TextValue(e)
    case SetSelectedYear(y) => TextValue(y)
    case SetSelectedWeek(w) => TextValue(w)
    case SetDarkMode(b) => FlagValue(b)
  }

  // ---------------------------------------------------------------------------
  // The reducer
  // ---------------------------------------------------------------------------

  /** The value `RESET_QUIZ` leaves in field `f`: the initial one, but for two fields. */
  function ResetValue<Q>(s: State<Q>, f: Field): Value<Q> {
    if f == DarkMode then Get(s, DarkMode)
    else if f == IsLoading then FlagValue(false)
    else Get(InitialState(), f)
  }

  /**
   * `quizReducer`. A `SET_*` action writes its payload to its own field and leaves every
   * other field as it was; `RESET_QUIZ` gives the initial record except that `darkMode` is
   * kept and `isLoading` is false; any other type returns the state unchanged.
   */
  function Reduce<Q>(s: State<Q>, a: Action<Q>): (r: State<Q>)
    ensures Target(a).Some? ==> forall f :: Get(r, f) == if f == Target(a).value then Payload(a) else Get(s, f)
    ensures a.ResetQuiz? ==> forall f :: Get(r, f) == ResetValue(s, f)
    ensures a.Unknown? ==> r == s
  {
    match a
    case SetQuestions(qs) => s.(questions := qs)
    case SetCurrentQuestionIndex(i) => s.(currentQuestionIndex := i)
    case SetScore(n) => s.(score := n)
    case SetSelectedOption(o) => s.(selectedOption := o)
    case SetShowResult(b) => s.(showResult := b)
    case SetLoading(b) => s.(isLoading := b)
    case SetError(e) => s.(error := e)
    case SetSelectedYear(y) => s.(selectedYear := y)
    case SetSelectedWeek(w) => s.(selectedWeek := w)
    case SetDarkMode(b) => s.(darkMode := b)
    case ResetQuiz => InitialState().(darkMode := s.darkMode, isLoading := false)
    case Unknown => s
  }

  /** Of two writes to the same field, only the second one shows. */
  lemma LastWriteWins<Q>(s: State<Q>, a: Action<Q>, b: Action<Q>)
    requires Target(a).Some? && Target(a) == Target(b)
    ensures Reduce(Reduce(s, a), b) == Reduce(s, b)
  {
    Extensionality(Reduce(Reduce(s, a), b), Reduce(s, b));
  }

  /** Writing a field's current value changes nothing. */
  lemma WriteCurrentValueIsIdentity<Q>(s: State<Q>, a: Action<Q>)
    requires Target(a).Some? && Payload(a) == Get(s, Target(a).value)
    ensures Reduce(s, a) == s
  {
    Extensionality(Reduce(s, a), s);
  }

  /** Writes to two different fields can be dispatched in either order. */
  lemma DistinctWritesCommute<Q>(s: State<Q>, a: Action<Q>, b: Action<Q>)
    requires Target(a).Some? && Target(b).Some? && Target(a) != Target(b)
    ensures Reduce(Reduce(s, a), b) == Reduce(Reduce(s, b), a)
  {
    Extensionality(Reduce(Reduce(s, a), b), Reduce(Reduce(s, b), a));
  }

  /** `RESET_QUIZ` forgets everything but `darkMode`, so resetting twice is resetting once. */
  lemma ResetDependsOnlyOnDarkMode<Q>(s: State<Q>, t: State<Q>)
    requires s.darkMode == t.darkMode
    ensures Reduce(s, ResetQuiz) == Reduce(t, ResetQuiz)
    ensures Reduce(Reduce(s, ResetQuiz), ResetQuiz) == Reduce(s, ResetQuiz)
  {
    Extensionality(Reduce(s, ResetQuiz), Reduce(t, ResetQuiz));
    Extensionality(Reduce(Reduce(s, ResetQuiz), ResetQuiz), Reduce(s, ResetQuiz));
  }

  // ---------------------------------------------------------------------------
  // The provider: `useReducer(quizReducer, initialState)` and its setters
  // ---------------------------------------------------------------------------

  /** The state held by `QuizProvider`; every change goes through `Dispatch`. */
  class Store<Q> {
    var state: State<Q>

    constructor ()
      ensures state == InitialState()
    {
      state := InitialState();
    }

    /** `dispatch(action)`. */
    method Dispatch(a: Action<Q>)
      modifies this
      ensures state == Reduce(old(state), a)
    {
      state := Reduce(state, a);
    }

    method SetQuestions(questions: seq<Q>)
      modifies this
      ensures state == Reduce(old(state), Action.SetQuestions(questions))
    {
      Dispatch(Action.SetQuestions(questions));
    }

    method SetCurrentQuestionIndex(index: int)
      modifies this
      ensures state == Reduce(old(state), Action.SetCurrentQuestionIndex(index))
    {
      Dispatch(Action.SetCurrentQuestionIndex(index));
    }

    method SetScore(score: int)
      modifies this
      ensures state == Reduce(old(state), Action.SetScore(score))
    {
      Dispatch(Action.SetScore(score));
    }

    method SetSelectedOption(option: Option<int>)
      modifies this
      ensures state == Reduce(old(state), Action.SetSelectedOption(option))
    {
      Dispatch(Action.SetSelectedOption(option));
    }

    method SetShowResult(showResult: bool)
      modifies this
      ensures state == Reduce(old(state), Action.SetShowResult(showResult))
    {
      Dispatch(Action.SetShowResult(showResult));
    }

    method SetLoading(isLoading: bool)
      modifies this
      ensures state == Reduce(old(state), Action.SetLoading(isLoading))
    {
      Dispatch(Action.SetLoading(isLoading));
    }

    method SetError(error: Option<string>)
      modifies this
      ensures state == Reduce(old(state), Action.SetError(error))
    {
      Dispatch(Action.SetError(error));
    }

    method SetSelectedYear(year: Option<string>)
      modifies this
      ensures state == Reduce(old(state), Action.SetSelectedYear(year))
    {
      Dispatch(Action.SetSelectedYear(year));
    }

    method SetSelectedWeek(week: Option<string>)
      modifies this
      ensures state == Reduce(old(state), Action.SetSelectedWeek(week))
    {
      Dispatch(Action.SetSelectedWeek(week));
    }

    method SetDarkMode(darkMode: bool)
      modifies this
      ensures state == Reduce(old(state), Action.SetDarkMode(darkMode))
    {
      Dispatch(Action.SetDarkMode(darkMode));
    }

    method ResetQuiz()
      modifies this
      ensures state == Reduce(old(state), Action.ResetQuiz)
    {
      Dispatch(Action.ResetQuiz);
    }
  }
}
