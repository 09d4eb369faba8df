/**
 * Question validation and sanitisation (src/utils/validation.js).
 *
 * A question arrives as a loosely typed JavaScript value. `Raw` keeps exactly the
 * distinctions the four checks look at: absent or not, object or primitive, whether
 * `question` is a string, whether `options` is an array and which of its entries are
 * strings, and whether `correctAnswerIndex` is a number (a finite real here).
 */
module Validation {
  import opened Wrappers

  // ---------------------------------------------------------------------------
  // String.prototype.trim
  // ---------------------------------------------------------------------------

  /** The characters `trim` removes: ECMAScript WhiteSpace and LineTerminator code points. */
  predicate IsWhitespace(c: char) {
    || c == '\t' || c == '\n' || c == '\U{000B}' || c == '\U{000C}' || c == '\r' || c == ' '
    || c == '\U{00A0}' || c == '\U{1680}' || ('\U{2000}' <= c <= '\U{200A}')
    || c == '\U{2028}' || c == '\U{2029}' || c == '\U{202F}' || c == '\U{205F}'
    || c == '\U{3000}' || c == '\U{FEFF}'
  }

  predicate AllWhitespace(s: string) {
    forall k :: 0 <= k < |s| ==> IsWhitespace(s[k])
  }

  /** Neither end of `s` is whitespace. */
  predicate IsTrimmed(s: string) {
    s == [] || (!IsWhitespace(s[0]) && !IsWhitespace(s[|s| - 1]))
  }

  /** Drops the leading whitespace. */
  function TrimStart(s: string): (r: string)
    ensures |r| <= |s|
    ensures r == [] || !IsWhitespace(r[0])
  {
    if |s| > 0 && IsWhitespace(s[0]) then TrimStart(s[1..]) else s
  }

  /** Drops the trailing whitespace. */
  function TrimEnd(s: string): (r: string)
    ensures |r| <= |s|
    ensures r == [] || !IsWhitespace(r[|r| - 1])
    ensures s == [] || !IsWhitespace(s[0]) ==> r == [] || !IsWhitespace(r[0])
  {
    if |s| > 0 && IsWhitespace(s[|s| - 1]) then TrimEnd(s[..|s| - 1]) else s
  }

  /** `s.trim()`. */
  function Trim(s: string): (r: string)
    ensures |r| <= |s| && IsTrimmed(r)
  {
    TrimEnd(TrimStart(s))
  }

  /** TrimStart removes a whitespace-only prefix and stops at the first other character. */
  lemma {:induction false} TrimStartSpec(s: string)
    ensures TrimStart(s) == s[|s| - |TrimStart(s)|..]
    ensures AllWhitespace(s[..|s| - |TrimStart(s)|])
    ensures TrimStart(s) == [] || !IsWhitespace(TrimStart(s)[0])
  {
    if |s| > 0 && IsWhitespace(s[0]) {
      TrimStartSpec(s[1..]);
      var r := TrimStart(s);
      assert s[1..][..|s| - 1 - |r|] == s[1..|s| - |r|];
      assert s[..|s| - |r|] == [s[0]] + s[1..|s| - |r|];
    }
  }

  /** TrimEnd removes a whitespace-only suffix and stops at the last other character. */
  lemma {:induction false} TrimEndSpec(s: string)
    ensures TrimEnd(s) == s[..|TrimEnd(s)|]
    ensures AllWhitespace(s[|TrimEnd(s)|..])
    ensures TrimEnd(s) == [] || !IsWhitespace(TrimEnd(s)[|TrimEnd(s)| - 1])
    ensures s == [] || !IsWhitespace(s[0]) ==> TrimEnd(s) == [] || !IsWhitespace(TrimEnd(s)[0])
  {
    if |s| > 0 && IsWhitespace(s[|s| - 1]) {
      TrimEndSpec(s[..|s| - 1]);
      var r := TrimEnd(s);
      assert s[..|s| - 1][|r|..] + [s[|s| - 1]] == s[|r|..];
    }
  }

  /**
   * `trim` leaves no whitespace at either end, gives "" exactly for an all-whitespace
   * string, and leaves an already trimmed string alone.
   */
  lemma TrimSpec(s: string)
    ensures IsTrimmed(Trim(s))
    ensures Trim(s) == [] <==> AllWhitespace(s)
    ensures IsTrimmed(s) ==> Trim(s) == s
  {
    var t := TrimStart(s);
    var r := TrimEnd(t);
    TrimStartSpec(s);
    TrimEndSpec(t);
    if r == [] {
      assert t[|r|..] == t;
      assert t == [];
      assert s[..|s| - |t|] == s;
    }
  }

  lemma TrimIdempotent(s: string)
    ensures Trim(Trim(s)) == Trim(s)
  {
    TrimSpec(s);
    TrimSpec(Trim(s));
  }

  // ---------------------------------------------------------------------------
  // Raw question records
  // ---------------------------------------------------------------------------

  /** The `question` property: a string, or some other value (missing, null, a number, ...). */
  datatype TextField = Text(s: string) | NonText(truthy: bool)

  /** One entry of an `options` array. */
  datatype OptionItem = Str(s: string) | NonStr

  /** The `options` property: an array, or anything that `Array.isArray` rejects. */
  datatype OptionsField = Array(items: seq<OptionItem>) | NotArray

  /** The `correctAnswerIndex` property: a (finite) number, or any non-number. */
  datatype IndexField = Num(x: real) | NonNum

  /**
   * A raw question: null/undefined, a primitive (number, string, boolean), or an object.
   * Of an object, `extra` holds the properties other than the three above; a missing
   * property is `NonText(false)`, `NotArray` or `NonNum`.
   */
  datatype Raw =
    | Absent
    | Primitive(truthy: bool)
    | Record(text: TextField, options: OptionsField, index: IndexField, extra: map<string, string>)

  /** A raw question list: an array, or anything that `Array.isArray` rejects. */
  datatype RawList = List(items: seq<Raw>) | NotList

  /** JavaScript truthiness of the `question` property. */
  predicate IsTruthyText(t: TextField) {
    match t
    case Text(s) => s != ""
    case NonText(truthy) => truthy
  }

  predicate IsInteger(x: real) {
    x.Floor as real == x
  }

  /** A non-empty string after trimming. */
  predicate IsOptionText(o: OptionItem) {
    o.Str? && Trim(o.s) != ""
  }

  /** What `validateQuestion` accepts, stated as one condition. */
  predicate IsValidQuestion(r: Raw) {
    && r.Record?
    && r.text.Text? && Trim(r.text.s) != ""
    && r.options.Array? && |r.options.items| > 0
    && (forall k :: 0 <= k < |r.options.items| ==> IsOptionText(r.options.items[k]))
    && r.index.Num? && 0.0 <= r.index.x < |r.options.items| as real && IsInteger(r.index.x)
  }

  /** `validateQuestion`: the checks in source order, with the early-return loop over the options. */
  method ValidateQuestion(r: Raw) returns (ok: bool)
    ensures ok == IsValidQuestion(r)
  {
    if !r.Record? {
      return false;
    }
    if !IsTruthyText(r.text) || !r.text.Text? || Trim(r.text.s) == "" {
      return false;
    }
    if !r.options.Array? || |r.options.items| == 0 {
      return false;
    }
    var items := r.options.items;
    for i := 0 to |items|
      invariant forall k :: 0 <= k < i ==> IsOptionText(items[k])
    {
      if !items[i].Str? || Trim(items[i].s) == "" {
        return false;
      }
    }
    var idx := r.index;
    if !idx.Num? || idx.x < 0.0 || idx.x >= |items| as real || !IsInteger(idx.x) {
      return false;
    }
    return true;
  }

  /** Every element of the list passes `validateQuestion`. */
  predicate AllValid(xs: RawList) {
    xs.List? && forall k :: 0 <= k < |xs.items| ==> IsValidQuestion(xs.items[k])
  }

  /** `validateQuestions`: false for a non-array, otherwise stops at the first invalid element. */
  method ValidateQuestions(xs: RawList) returns (ok: bool)
    ensures ok == AllValid(xs)
  {
    if !xs.List? {
      return false;
    }
    for i := 0 to |xs.items|
      invariant forall k :: 0 <= k < i ==> IsValidQuestion(xs.items[k])
    {
      var valid := ValidateQuestion(xs.items[i]);
      if !valid {
        return false;
      }
    }
    return true;
  }

  // ---------------------------------------------------------------------------
  // Sanitisation
  // ---------------------------------------------------------------------------

  /** `question.question ? question.question.trim() : ""`, with a non-string text giving "". */
  function SanitizeText(t: TextField): string {
    match t
    case Text(s) => if s != "" then Trim(s) else ""
    case NonText(_) => ""
  }

  /** The same expression as written: `None` where `.trim` is called on a truthy non-string. */
  function SanitizeTextAsWritten(t: TextField): Option<string> {
    match t
    case Text(s) => Some(if s != "" then Trim(s) else "")
    case NonText(truthy) => if truthy then None else Some("")
  }

  function SanitizeOption(o: OptionItem): OptionItem {
    match o
    case Str(s) => Str(Trim(s))
    case NonStr => Str("")
  }

  function SanitizeOptions(f: OptionsField): OptionsField {
    match f
    case Array(items) => Array(seq(|items|, k requires 0 <= k < |items| => SanitizeOption(items[k])))
    case NotArray => Array([])
  }

  function SanitizeIndex(i: IndexField): IndexField {
    match i
    case Num(x) => Num(x.Floor as real)
    case NonNum => Num(0.0)
  }

  /**
   * `sanitizeQuestion`, with the non-string text case corrected to give "" (see
   * SanitizeQuestionAsWritten). A falsy input gives null; anything else gives an object
   * whose text is a trimmed string, whose options are an array of trimmed strings as long
   * as the original array, whose index is an integer, and whose other properties are copied.
   */
  function SanitizeQuestion(r: Raw): (q: Raw)
    ensures q.Absent? <==> r.Absent? || r == Primitive(false)
    ensures q.Record? ==> q.text.Text? && q.options.Array?
    ensures q.Record? ==> forall k :: 0 <= k < |q.options.items| ==> q.options.items[k].Str?
    ensures q.Record? ==> q.index.Num? && IsInteger(q.index.x)
    ensures r.Record? ==> q.Record? && q.extra == r.extra
    ensures r.Record? && r.options.Array? ==> |q.options.items| == |r.options.items|
    ensures r.Record? && r.options.NotArray? ==> q.options.items == []
    ensures r.Record? && r.index.Num? ==> q.index.x <= r.index.x < q.index.x + 1.0
    ensures r.Record? && r.index.NonNum? ==> q.index.x == 0.0
    ensures r.Record? ==> q.text.s == (if r.text.Text? then Trim(r.text.s) else "")
    ensures r.Record? && r.options.Array? ==>
      forall k :: 0 <= k < |r.options.items| ==>
        q.options.items[k] == Str(if r.options.items[k].Str? then Trim(r.options.items[k].s) else "")
    ensures r == Primitive(true) ==> q == Record(Text(""), Array([]), Num(0.0), map[])
  {
    match r
    case Absent => Absent
    case Primitive(truthy) =>
      // `{...5}` has no own properties, so every field takes its default.
      if truthy then Record(Text(""), Array([]), Num(0.0), map[]) else Absent
    case Record(text, options, index, extra) =>
      Record(Text(SanitizeText(text)), SanitizeOptions(options), SanitizeIndex(index), extra)
  }

  /** Every string a sanitised question holds, its text and each option, is trimmed. */
  lemma SanitizedIsTrimmed(r: Raw)
    ensures var q := SanitizeQuestion(r);
      q.Record? ==> IsTrimmed(q.text.s) && forall k :: 0 <= k < |q.options.items| ==> IsTrimmed(q.options.items[k].s)
  {
    var q := SanitizeQuestion(r);
    if r.Record? {
      if r.text.Text? {
        TrimSpec(r.text.s);
      }
      if r.options.Array? {
        forall k | 0 <= k < |q.options.items|
          ensures IsTrimmed(q.options.items[k].s)
        {
          if r.options.items[k].Str? {
            TrimSpec(r.options.items[k].s);
          }
        }
      }
    }
  }

  /**
   * `sanitizeQuestion` exactly as written: `None` stands for the TypeError thrown when
   * the `question` property is truthy but not a string. Wherever it does not throw it
   * agrees with SanitizeQuestion.
   */
  function SanitizeQuestionAsWritten(r: Raw): (q: Option<Raw>)
    ensures q.None? <==> r.Record? && r.text == NonText(true)
    ensures q.Some? ==> q.value == SanitizeQuestion(r)
  {
    if r.Record? then
      match SanitizeTextAsWritten(r.text)
      case None => None
      case Some(t) => Some(Record(Text(t), SanitizeOptions(r.options), SanitizeIndex(r.index), r.extra))
    else
      Some(SanitizeQuestion(r))
  }

  /** A question whose text is the number 42 makes the code as written throw. */
  lemma SanitizeAsWrittenThrowsOnNumericText()
    ensures SanitizeQuestionAsWritten(Record(NonText(true), Array([Str("A")]), Num(0.0), map[])).None?
    ensures SanitizeQuestion(Record(NonText(true), Array([Str("A")]), Num(0.0), map[])).Record?
  {
  }

  lemma {:induction false} SanitizeIdempotent(r: Raw)
    ensures SanitizeQuestion(SanitizeQuestion(r)) == SanitizeQuestion(r)
  {
    var q := SanitizeQuestion(r);
    if q.Record? {
      var items := q.options.items;
      var again := SanitizeOptions(q.options).items;
      assert |again| == |items|;
      forall k | 0 <= k < |items|
        ensures again[k] == items[k]
      {
        if r.options.Array? {
          assert items[k] == SanitizeOption(r.options.items[k]);
          if r.options.items[k].Str? {
            TrimIdempotent(r.options.items[k].s);
          }
        }
      }
      assert again == items;
      if r.Record? && r.text.Text? {
        TrimIdempotent(r.text.s);
      }
    }
  }

  /** When sanitising a record yields a question that passes `validateQuestion`. */
  predicate SanitizesToValid(r: Raw) {
    && r.Record?
    && r.text.Text? && Trim(r.text.s) != ""
    && r.options.Array? && |r.options.items| > 0
    && (forall k :: 0 <= k < |r.options.items| ==> IsOptionText(r.options.items[k]))
    && match r.index
       case Num(x) => 0 <= x.Floor < |r.options.items|
       case NonNum => true
  }

  lemma {:induction false} SanitizedValidIff(r: Raw)
    ensures IsValidQuestion(SanitizeQuestion(r)) <==> SanitizesToValid(r)
  {
    var q := SanitizeQuestion(r);
    if r.Record? && r.options.Array? {
      var items := r.options.items;
      var clean := q.options.items;
      assert |clean| == |items|;
      assert (forall k :: 0 <= k < |clean| ==> IsOptionText(clean[k]))
         <==> (forall k :: 0 <= k < |items| ==> IsOptionText(items[k])) by {
        forall k | 0 <= k < |items|
          ensures IsOptionText(clean[k]) <==> IsOptionText(items[k])
        {
          if items[k].Str? {
            TrimIdempotent(items[k].s);
          }
        }
      }
      if r.text.Text? {
        TrimIdempotent(r.text.s);
      }
    }
  }

  /** A question that already passes `validateQuestion` still passes after sanitising. */
  lemma SanitizeKeepsValid(r: Raw)
    requires IsValidQuestion(r)
    ensures IsValidQuestion(SanitizeQuestion(r))
  {
    SanitizedValidIff(r);
    assert r.index.x.Floor as real == r.index.x;
  }

  // ---------------------------------------------------------------------------
  // Lists
  // ---------------------------------------------------------------------------

  /** `r` is `s` with some elements removed, the rest in their original order. */
  ghost predicate IsSubsequence<T>(r: seq<T>, s: seq<T>)
    decreases |s|
  {
    r == [] || (s != [] && ((r[0] == s[0] && IsSubsequence(r[1..], s[1..])) || IsSubsequence(r, s[1..])))
  }

  /** `Array.prototype.filter`. */
  function Filter<T(!new)>(p: T -> bool, s: seq<T>): (r: seq<T>)
    ensures |r| <= |s|
    ensures forall k :: 0 <= k < |r| ==> p(r[k])
    ensures IsSubsequence(r, s)
    ensures (forall k :: 0 <= k < |s| ==> p(s[k])) ==> r == s
    ensures forall x :: multiset(r)[x] == if p(x) then multiset(s)[x] else 0
  {
    if s == [] then []
    else
      assert s == [s[0]] + s[1..];
      if p(s[0]) then [s[0]] + Filter(p, s[1..])
      else Filter(p, s[1..])
  }

  /** `.map(sanitizeQuestion)`. */
  function SanitizeEach(items: seq<Raw>): (r: seq<Raw>)
    ensures |r| == |items| && forall k :: 0 <= k < |items| ==> r[k] == SanitizeQuestion(items[k])
  {
    seq(|items|, k requires 0 <= k < |items| => SanitizeQuestion(items[k]))
  }

  /** `.map(sanitizeQuestion)` of a list with a first element. */
  lemma SanitizeEachCons(a: Raw, rest: seq<Raw>)
    ensures SanitizeEach([a] + rest) == [SanitizeQuestion(a)] + SanitizeEach(rest)
  {
  }

  /** Sanitising an absent input gives null, so dropping the absent inputs first loses no valid question. */
  lemma {:induction false} DropAbsentKeepsValid(items: seq<Raw>, x: Raw)
    requires IsValidQuestion(x)
    ensures multiset(SanitizeEach(Filter(IsPresent, items)))[x] == multiset(SanitizeEach(items))[x]
    decreases |items|
  {
    if items != [] {
      var a, rest := items[0], items[1..];
      assert items == [a] + rest;
      DropAbsentKeepsValid(rest, x);
      SanitizeEachCons(a, rest);
      var kept := Filter(IsPresent, rest);
      if IsPresent(a) {
        assert Filter(IsPresent, items) == [a] + kept;
        SanitizeEachCons(a, kept);
      } else {
        assert Filter(IsPresent, items) == kept;
        assert SanitizeQuestion(a) != x;
      }
    }
  }

  /** `question !== null && question !== undefined`. */
  predicate IsPresent(r: Raw) {
    !r.Absent?
  }

  /** `question !== null && validateQuestion(question)`. */
  predicate IsKept(r: Raw) {
    !r.Absent? && IsValidQuestion(r)
  }

  /** Filtering the sanitised present inputs keeps each valid one as often as it occurs among all the sanitised inputs. */
  lemma KeepsEveryValid(items: seq<Raw>)
    ensures var r := Filter(IsKept, SanitizeEach(Filter(IsPresent, items)));
      && (forall x :: multiset(r)[x] == if IsValidQuestion(x) then multiset(SanitizeEach(items))[x] else 0)
      && (forall k :: 0 <= k < |items| && IsValidQuestion(SanitizeQuestion(items[k])) ==> SanitizeQuestion(items[k]) in r)
  {
    var r := Filter(IsKept, SanitizeEach(Filter(IsPresent, items)));
    forall x
      ensures multiset(r)[x] == if IsValidQuestion(x) then multiset(SanitizeEach(items))[x] else 0
    {
      if IsValidQuestion(x) {
        DropAbsentKeepsValid(items, x);
      }
    }
    forall k | 0 <= k < |items| && IsValidQuestion(SanitizeQuestion(items[k]))
      ensures SanitizeQuestion(items[k]) in r
    {
      assert SanitizeEach(items)[k] == SanitizeQuestion(items[k]);
      assert SanitizeQuestion(items[k]) in multiset(SanitizeEach(items));
    }
  }

  /** A list that already passes `validateQuestions` comes through sanitised element by element. */
  lemma KeepsAllOfValidList(items: seq<Raw>)
    requires AllValid(List(items))
    ensures Filter(IsKept, SanitizeEach(Filter(IsPresent, items))) == SanitizeEach(items)
  {
    assert Filter(IsPresent, items) == items;
    var sanitized := SanitizeEach(items);
    forall k | 0 <= k < |items|
      ensures IsKept(sanitized[k])
    {
      SanitizeKeepsValid(items[k]);
    }
  }

  /**
   * `sanitizeQuestions`: `[]` for a non-array; otherwise the sanitised non-null inputs,
   * in order, less those that fail `validateQuestion` after sanitising. Whatever it returns
   * passes `validateQuestions`; every sanitised input that passes is kept, as often as it
   * occurs; and a list that already passes loses nothing. It is built on the corrected
   * SanitizeQuestion: as written, the code throws for a list holding a record whose text
   * is truthy but not a string (see SanitizeQuestionAsWritten).
   */
  function SanitizeQuestions(xs: RawList): (r: seq<Raw>)
    ensures AllValid(List(r))
    ensures xs.NotList? ==> r == []
    ensures xs.List? ==> |r| <= |xs.items| && IsSubsequence(r, SanitizeEach(Filter(IsPresent, xs.items)))
    ensures xs.List? ==> forall x :: multiset(r)[x] == if IsValidQuestion(x) then multiset(SanitizeEach(xs.items))[x] else 0
    ensures xs.List? ==> forall k :: 0 <= k < |xs.items| && IsValidQuestion(SanitizeQuestion(xs.items[k])) ==>
      SanitizeQuestion(xs.items[k]) in r
    ensures AllValid(xs) ==> r == SanitizeEach(xs.items)
  {
    match xs
    case NotList => []
    case List(items) =>
      var present := Filter(IsPresent, items);
      var sanitized := SanitizeEach(present);
      var r := Filter(IsKept, sanitized);
      KeepsEveryValid(items);
      assert AllValid(xs) ==> r == SanitizeEach(items) by {
        if AllValid(xs) {
          KeepsAllOfValidList(items);
        }
      }
      r
  }
}
