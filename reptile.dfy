/** The batch entry point `prompt` (reptile/reptile.py): the three pre-flight
    checks, the construction of every form with the default style filled in,
    and the sequential run of the forms over one shared answers dict. */
module Reptile {
  import opened PyValue
  import opened Terminal
  import opened Abstract
  import opened Forms

  /** `DEFAULT_STYLE`, kept as an opaque style object. */
  const DefaultStyle: Value := PyObject(0)

  /** `ACCEPTED_TYPES`. */
  const AcceptedTypes: seq<string> := ["Checkbox", "Confirm", "Input", "List"]

  /** The errors `prompt` ends with: the four `ReptileError` kinds, a form
      constructor that fails, and a form that yields no answer. */
  datatype PromptError =
    | UnnamedQuestion
    | NotUniqueNames
    | MissingFormType
    | InvalidFormType
    | InitFailed(cause: InitError)
    | AskFailed(name: string, reason: AskError)

  /** What `prompt` accepts: one question dict or a list of them. */
  datatype Questions = Single(question: Question) | Batch(questions: seq<Question>)

  /** A single question is asked as a one-element list. */
  function AsList(questions: Questions): (r: seq<Question>)
    ensures questions.Single? ==> |r| == 1 && r[0] == questions.question
    ensures questions.Batch? ==> r == questions.questions
  {
    match questions
    case Single(q) => [q]
    case Batch(qs) => qs
  }

  /** `FORMS_MAP`: the form kind a type name selects. */
  function KindOf(t: string): (k: FormType)
    requires t in AcceptedTypes
    ensures k == CheckboxType <==> t == "Checkbox"
    ensures k == ConfirmType <==> t == "Confirm"
    ensures k == InputType <==> t == "Input"
    ensures k == ListType <==> t == "List"
  {
    if t == "Checkbox" then CheckboxType
    else if t == "Confirm" then ConfirmType
    else if t == "List" then ListType
    else InputType
  }

  /** A question passes the name check: a `Name` key with a truthy value. */
  predicate Named(q: Question)
  {
    q.name.Some? && q.name.value != ""
  }

  predicate AllNamed(qs: seq<Question>)
  {
    forall i :: 0 <= i < |qs| ==> Named(qs[i])
  }

  /** `_check_questions_are_named`. */
  method CheckQuestionsAreNamed(qs: seq<Question>) returns (err: Option<PromptError>)
    ensures err.None? <==> AllNamed(qs)
    ensures err.Some? ==> err.value == UnnamedQuestion
  {
    for i := 0 to |qs|
      invariant forall j :: 0 <= j < i ==> Named(qs[j])
    {
      if qs[i].name.None? || qs[i].name.value == "" {
        return Some(UnnamedQuestion);
      }
    }
    return None;
  }

  /** The lower-cased names, in question order. */
  function LowerNames(qs: seq<Question>): (r: seq<string>)
    requires AllNamed(qs)
    ensures |r| == |qs| && forall i :: 0 <= i < |qs| ==> r[i] == Lower(qs[i].name.value)
  {
    seq(|qs|, i requires 0 <= i < |qs| => Lower(qs[i].name.value))
  }

  /** A sequence has as many distinct elements as entries exactly when no
      two entries are equal. */
  lemma {:induction false} CardinalityIffDistinct<T>(s: seq<T>)
    ensures |set x | x in s| <= |s|
    ensures |set x | x in s| == |s| <==> forall i, j :: 0 <= i < j < |s| ==> s[i] != s[j]
  {
    if s != [] {
      var t := s[..|s| - 1];
      var last := s[|s| - 1];
      CardinalityIffDistinct(t);
      assert s == t + [last];
      assert (set x | x in s) == (set x | x in t) + {last};
      if last in t {
        var k :| 0 <= k < |t| && t[k] == last;
        assert s[k] == s[|s| - 1];
        assert (set x | x in s) == (set x | x in t);
      } else {
        assert forall i :: 0 <= i < |t| ==> s[i] == t[i];
      }
    }
  }

  /** `_check_names_are_unique`: the list of lower-cased names is as long
      as the set of them, which holds exactly when no two questions' names
      agree after lower-casing. */
  function NamesAreUnique(qs: seq<Question>): (r: bool)
    requires AllNamed(qs)
    ensures r <==> forall i, j :: 0 <= i < j < |qs| ==> Lower(qs[i].name.value) != Lower(qs[j].name.value)
  {
    var listNames := LowerNames(qs);
    var setNames := set n | n in listNames;
    CardinalityIffDistinct(listNames);
    |listNames| == |setNames|
  }

  /** A question passes the type check. */
  predicate TypeOk(q: Question)
  {
    q.formType.Some? && q.formType.value in AcceptedTypes
  }

  /** The error a question failing the type check raises: a missing `Type`
      is reported before an unsupported one. */
  function FormTypeError(q: Question): (e: PromptError)
    requires !TypeOk(q)
    ensures e == MissingFormType <==> q.formType.None?
    ensures e == InvalidFormType <==> q.formType.Some? && q.formType.value !in AcceptedTypes
  {
    if q.formType.None? then MissingFormType else InvalidFormType
  }

  /** The outcome of `_check_valid_form_types`: the error of the first
      question, in list order, whose type is missing or unsupported. */
  function TypesCheck(qs: seq<Question>): (r: Option<PromptError>)
    ensures r.None? <==> forall i :: 0 <= i < |qs| ==> TypeOk(qs[i])
    ensures r.Some? ==>
      exists i :: 0 <= i < |qs| && !TypeOk(qs[i]) && r.value == FormTypeError(qs[i])
                && forall j :: 0 <= j < i ==> TypeOk(qs[j])
  {
    if qs == [] then None
    else if !TypeOk(qs[0]) then Some(FormTypeError(qs[0]))
    else
      var r := TypesCheck(qs[1..]);
      assert forall i :: 1 <= i < |qs| ==> qs[i] == qs[1..][i - 1];
      if r.Some? then
        var i :| 0 <= i < |qs[1..]| && !TypeOk(qs[1..][i]) && r.value == FormTypeError(qs[1..][i])
                 && forall j :: 0 <= j < i ==> TypeOk(qs[1..][j]);
        assert !TypeOk(qs[i + 1]) && forall j :: 0 <= j < i + 1 ==> TypeOk(qs[j]);
        r
      else r
  }

  /** `_check_valid_form_types`. */
  method CheckValidFormTypes(qs: seq<Question>) returns (err: Option<PromptError>)
    ensures err == TypesCheck(qs)
  {
    var i := 0;
    while i < |qs|
      invariant 0 <= i <= |qs|
      invariant TypesCheck(qs) == TypesCheck(qs[i..])
    {
      assert qs[i..][1..] == qs[i + 1..];
      if qs[i].formType.None? {
        return Some(MissingFormType);
      }
      if qs[i].formType.value !in AcceptedTypes {
        return Some(InvalidFormType);
      }
      i := i + 1;
    }
    return None;
  }

  /** The question as it is handed to its form: a missing or falsy `Style`
      becomes `DEFAULT_STYLE`, and nothing else changes. */
  function WithStyle(q: Question): (r: Question)
    ensures q.style.None? || IsFalsy(q.style.value) ==> r.style == Some(DefaultStyle)
    ensures q.style.Some? && !IsFalsy(q.style.value) ==> r.style == q.style
    ensures r == q.(style := r.style)
  {
    if q.style.None? || IsFalsy(q.style.value) then q.(style := Some(DefaultStyle)) else q
  }

  /** `f` is the form `FORMS_MAP[q["Type"]](**q)` builds, after the style
      defaulting. */
  ghost predicate BuiltFrom(f: Form, q: Question)
  {
    && Named(q) && TypeOk(q)
    && f.kind == KindOf(q.formType.value)
    && Init(WithStyle(q)) == Ok(f.config)
  }

  /** Every form's configuration is one its constructor can produce. */
  predicate FormsConsistent(forms: seq<Form>)
  {
    forall i :: 0 <= i < |forms| ==> Consistent(forms[i].config)
  }

  /** The forms built for the first `n` questions, or the constructor error
      of the first question whose form cannot be built. */
  function BuildForms(qs: seq<Question>, n: nat): (r: Result<seq<Form>, PromptError>)
    requires n <= |qs|
    requires AllNamed(qs) && forall i :: 0 <= i < |qs| ==> TypeOk(qs[i])
    ensures r.Ok? <==> forall i :: 0 <= i < n ==> Init(WithStyle(qs[i])).Ok?
    ensures r.Ok? ==> |r.value| == n && forall i :: 0 <= i < n ==> BuiltFrom(r.value[i], qs[i])
    ensures r.Ok? ==> FormsConsistent(r.value)
    ensures r.Err? ==> r.error.InitFailed?
  {
    if n == 0 then Ok([])
    else
      match BuildForms(qs, n - 1)
      case Err(e) => Err(e)
      case Ok(forms) =>
        var q := WithStyle(qs[n - 1]);
        match Init(q)
        case Err(e) => Err(InitFailed(e))
        case Ok(c) => Ok(forms + [Form(KindOf(q.formType.value), c)])
  }

  /** A constructor failure ends the construction: its error is the
      construction's error. */
  lemma {:induction false} BuildFormsErrPersists(qs: seq<Question>, m: nat, n: nat)
    requires m <= n <= |qs|
    requires AllNamed(qs) && forall i :: 0 <= i < |qs| ==> TypeOk(qs[i])
    requires BuildForms(qs, m).Err?
    ensures BuildForms(qs, n) == BuildForms(qs, m)
    decreases n
  {
    if m < n {
      BuildFormsErrPersists(qs, m, n - 1);
    }
  }

  /** A failed construction reports the first question, in list order,
      whose form cannot be built. */
  lemma {:induction false} BuildFormsFirstFailure(qs: seq<Question>, n: nat)
    requires n <= |qs|
    requires AllNamed(qs) && forall i :: 0 <= i < |qs| ==> TypeOk(qs[i])
    requires BuildForms(qs, n).Err?
    ensures exists i :: 0 <= i < n && Init(WithStyle(qs[i])).Err?
                        && BuildForms(qs, n).error == InitFailed(Init(WithStyle(qs[i])).error)
                        && forall j :: 0 <= j < i ==> Init(WithStyle(qs[j])).Ok?
  {
    if BuildForms(qs, n - 1).Err? {
      BuildFormsFirstFailure(qs, n - 1);
    } else {
      assert Init(WithStyle(qs[n - 1])).Err?;
    }
  }

  /** The session the i-th form is answered with; a form past the end of
      the sessions gets an empty one. */
  function SessionAt(sessions: seq<Session>, i: nat): (s: Session)
    ensures i < |sessions| ==> s == sessions[i]
    ensures i >= |sessions| ==> s.keys == [] && s.lines == []
  {
    if i < |sessions| then sessions[i] else Session([], [])
  }

  /** The answers dict after the first `n` forms ran in list order, each on
      its own session and seeing the answers written before it. */
  function RunAll(forms: seq<Form>, sessions: seq<Session>, n: nat): (r: Result<Answers, PromptError>)
    requires n <= |forms| && FormsConsistent(forms)
    ensures r.Err? ==> r.error.AskFailed? && exists i :: 0 <= i < n && r.error.name == forms[i].config.name
  {
    if n == 0 then Ok(map[])
    else
      match RunAll(forms, sessions, n - 1)
      case Err(e) => Err(e)
      case Ok(answers) =>
        match AskSpec(forms[n - 1], answers, SessionAt(sessions, n - 1))
        case Err(e) => Err(AskFailed(forms[n - 1].config.name, e))
        case Ok(next) => Ok(next)
  }

  /** A failure of one form ends the run: the error is the run's error. */
  lemma {:induction false} RunAllErrPersists(forms: seq<Form>, sessions: seq<Session>, m: nat, n: nat)
    requires m <= n <= |forms| && FormsConsistent(forms)
    requires RunAll(forms, sessions, m).Err?
    ensures RunAll(forms, sessions, n) == RunAll(forms, sessions, m)
    decreases n
  {
    if m < n {
      RunAllErrPersists(forms, sessions, m, n - 1);
    }
  }

  /** The checks pass and every form is built: the forms are ready to be
      asked. */
  predicate Ready(qs: seq<Question>)
  {
    && AllNamed(qs) && NamesAreUnique(qs) && TypesCheck(qs).None?
    && BuildForms(qs, |qs|).Ok?
  }

  /** `prompt`: the checks in the order named, unique, types; then every
      form is built; then the forms run. */
  function PromptSpec(questions: Questions, sessions: seq<Session>): (r: Result<Answers, PromptError>)
    ensures !AllNamed(AsList(questions)) ==> r == Err(UnnamedQuestion)
    ensures AllNamed(AsList(questions)) && !NamesAreUnique(AsList(questions)) ==> r == Err(NotUniqueNames)
    ensures r.Ok? || r.error.AskFailed? <==> Ready(AsList(questions))
  {
    var qs := AsList(questions);
    if !AllNamed(qs) then Err(UnnamedQuestion)
    else if !NamesAreUnique(qs) then Err(NotUniqueNames)
    else
      match TypesCheck(qs)
      case Some(e) => Err(e)
      case None =>
        match BuildForms(qs, |qs|)
        case Err(e) => Err(e)
        case Ok(forms) =>
          assert FormsConsistent(forms);
          RunAll(forms, sessions, |forms|)
  }

  /** The construction loop of `prompt`: the style defaulting and the form
      constructor for each question in list order. */
  method BuildAll(qs: seq<Question>) returns (r: Result<seq<Form>, PromptError>)
    requires AllNamed(qs) && forall i :: 0 <= i < |qs| ==> TypeOk(qs[i])
    ensures r == BuildForms(qs, |qs|)
  {
    var forms: seq<Form> := [];
    for i := 0 to |qs|
      invariant BuildForms(qs, i) == Ok(forms)
    {
      var q := WithStyle(qs[i]);
      var c := Init(q);
      if c.Err? {
        BuildFormsErrPersists(qs, i + 1, |qs|);
        return Err(InitFailed(c.error));
      }
      forms := forms + [Form(KindOf(q.formType.value), c.value)];
    }
    return Ok(forms);
  }

  /** The run loop of `prompt`: every form asked in list order on one
      shared answers dict. */
  method AskAll(forms: seq<Form>, sessions: seq<Session>) returns (r: Result<Answers, PromptError>)
    requires FormsConsistent(forms)
    ensures r == RunAll(forms, sessions, |forms|)
  {
    var answers := new AnswerDict();
    for i := 0 to |forms|
      invariant RunAll(forms, sessions, i) == Ok(answers.entries)
    {
      var e := AskQuestion(forms[i], answers, SessionAt(sessions, i));
      if e.Some? {
        RunAllErrPersists(forms, sessions, i + 1, |forms|);
        return Err(AskFailed(forms[i].config.name, e.value));
      }
    }
    return Ok(answers.entries);
  }

  /** `prompt`, with the terminal replaced by one session per question. */
  method Prompt(questions: Questions, sessions: seq<Session>) returns (r: Result<Answers, PromptError>)
    ensures r == PromptSpec(questions, sessions)
  {
    var qs := AsList(questions);
    var err := CheckQuestionsAreNamed(qs);
    if err.Some? {
      return Err(err.value);
    }
    if !NamesAreUnique(qs) {
      return Err(NotUniqueNames);
    }
    err := CheckValidFormTypes(qs);
    if err.Some? {
      return Err(err.value);
    }
    var built := BuildAll(qs);
    if built.Err? {
      return Err(built.error);
    }
    r := AskAll(built.value, sessions);
  }

  /** A single question dict behaves as the list holding it. */
  lemma SingleIsOneElementList(q: Question, sessions: seq<Session>)
    ensures PromptSpec(Single(q), sessions) == PromptSpec(Batch([q]), sessions)
  {
  }

  /** Any question without a truthy name rejects the whole batch, whatever
      the other questions and the sessions are. */
  lemma UnnamedRejected(qs: seq<Question>, sessions: seq<Session>, i: nat)
    requires i < |qs| && !Named(qs[i])
    ensures PromptSpec(Batch(qs), sessions) == Err(UnnamedQuestion)
  {
  }

  /** Two named questions whose names agree after lower-casing reject the
      batch, whatever the sessions are. */
  lemma DuplicateNamesRejected(qs: seq<Question>, sessions: seq<Session>, i: nat, j: nat)
    requires AllNamed(qs) && i < j < |qs|
    requires Lower(qs[i].name.value) == Lower(qs[j].name.value)
    ensures PromptSpec(Batch(qs), sessions) == Err(NotUniqueNames)
  {
  }

  /** With the names in order, the first question in list order with a
      missing or unsupported type decides the error. */
  lemma FirstTypeErrorRejected(qs: seq<Question>, sessions: seq<Session>, i: nat)
    requires AllNamed(qs) && NamesAreUnique(qs)
    requires i < |qs| && !TypeOk(qs[i]) && forall j :: 0 <= j < i ==> TypeOk(qs[j])
    ensures PromptSpec(Batch(qs), sessions) == Err(FormTypeError(qs[i]))
  {
    var r := TypesCheck(qs);
    var k :| 0 <= k < |qs| && !TypeOk(qs[k]) && r.value == FormTypeError(qs[k])
             && forall j :: 0 <= j < k ==> TypeOk(qs[j]);
    assert k == i;
  }

  /** A batch that fails a check or a constructor fails before any form is
      asked: the sessions play no part in the outcome. */
  lemma NotReadyIgnoresSessions(questions: Questions, s1: seq<Session>, s2: seq<Session>)
    requires !Ready(AsList(questions))
    ensures PromptSpec(questions, s1).Err?
    ensures PromptSpec(questions, s1) == PromptSpec(questions, s2)
  {
  }

  /** `RunAll` succeeding for `n` forms succeeds for every shorter prefix. */
  lemma {:induction false} RunAllOkPrefix(forms: seq<Form>, sessions: seq<Session>, m: nat, n: nat)
    requires m <= n <= |forms| && FormsConsistent(forms)
    requires RunAll(forms, sessions, n).Ok?
    ensures RunAll(forms, sessions, m).Ok?
    decreases n
  {
    if m < n {
      RunAllOkPrefix(forms, sessions, m, n - 1);
    }
  }

  /** The i-th form is asked: the forms before it succeeded and its `When`
      accepts the answers they wrote. */
  ghost predicate Asked(forms: seq<Form>, sessions: seq<Session>, i: nat)
    requires i < |forms| && FormsConsistent(forms)
  {
    RunAll(forms, sessions, i).Ok? && ShouldAsk(forms[i].config, RunAll(forms, sessions, i).value)
  }

  /** The names of the forms among the first `n` that are asked. */
  ghost function AskedNames(forms: seq<Form>, sessions: seq<Session>, n: nat): set<string>
    requires n <= |forms| && FormsConsistent(forms)
  {
    set i | 0 <= i < n && Asked(forms, sessions, i) :: forms[i].config.name
  }

  /** The answers' keys are exactly the names of the asked forms: a skipped
      form writes nothing. */
  lemma {:induction false} RunAllKeys(forms: seq<Form>, sessions: seq<Session>, n: nat)
    requires n <= |forms| && FormsConsistent(forms)
    requires RunAll(forms, sessions, n).Ok?
    ensures RunAll(forms, sessions, n).value.Keys == AskedNames(forms, sessions, n)
  {
    if n > 0 {
      RunAllOkPrefix(forms, sessions, n - 1, n);
      RunAllKeys(forms, sessions, n - 1);
      var before := RunAll(forms, sessions, n - 1).value;
      var after := RunAll(forms, sessions, n).value;
      var f := forms[n - 1];
      if Asked(forms, sessions, n - 1) {
        assert AskedNames(forms, sessions, n) == AskedNames(forms, sessions, n - 1) + {f.config.name};
        assert after.Keys == before.Keys + {f.config.name};
      } else {
        assert AskedNames(forms, sessions, n) == AskedNames(forms, sessions, n - 1);
        assert after == before;
      }
    }
  }

  /** Forms with pairwise distinct names. */
  predicate DistinctNames(forms: seq<Form>)
  {
    forall a, b :: 0 <= a < b < |forms| ==> forms[a].config.name != forms[b].config.name
  }

  /** With distinct names, every asked form's entry survives the later
      forms and holds its finished answer. */
  lemma {:induction false} AskedAnswerKept(forms: seq<Form>, sessions: seq<Session>, n: nat, i: nat)
    requires n <= |forms| && FormsConsistent(forms) && DistinctNames(forms)
    requires i < n && RunAll(forms, sessions, n).Ok? && Asked(forms, sessions, i)
    ensures RawAnswer(forms[i], SessionAt(sessions, i)).Ok?
    ensures forms[i].config.name in RunAll(forms, sessions, n).value
    ensures RunAll(forms, sessions, n).value[forms[i].config.name]
            == Finish(forms[i].config, RawAnswer(forms[i], SessionAt(sessions, i)).value)
  {
    RunAllOkPrefix(forms, sessions, n - 1, n);
    if i < n - 1 {
      AskedAnswerKept(forms, sessions, n - 1, i);
      assert forms[i].config.name != forms[n - 1].config.name;
    }
  }

  /** A form sees only what came before it: the answers after `n` forms
      depend on the first `n` forms and sessions alone. */
  lemma {:induction false} RunAllDependsOnPrefix(forms: seq<Form>, forms': seq<Form>,
                                                 sessions: seq<Session>, sessions': seq<Session>, n: nat)
    requires n <= |forms| && n <= |forms'| && FormsConsistent(forms) && FormsConsistent(forms')
    requires forall i :: 0 <= i < n ==> forms[i] == forms'[i]
    requires forall i :: 0 <= i < n ==> SessionAt(sessions, i) == SessionAt(sessions', i)
    ensures RunAll(forms, sessions, n) == RunAll(forms', sessions', n)
  {
    if n > 0 {
      RunAllDependsOnPrefix(forms, forms', sessions, sessions', n - 1);
    }
  }

  /** A successful `prompt` passed every check and built every form, and
      its answers are those of running the built forms. */
  lemma PromptRunsBuiltForms(questions: Questions, sessions: seq<Session>)
    requires PromptSpec(questions, sessions).Ok?
    ensures Ready(AsList(questions))
    ensures PromptSpec(questions, sessions)
            == RunAll(BuildForms(AsList(questions), |AsList(questions)|).value, sessions, |AsList(questions)|)
  {
  }

  /** Forms built from a ready batch are consistent and, since the names
      differ even after lower-casing, have distinct names. */
  lemma ReadyFormsDistinct(qs: seq<Question>)
    requires Ready(qs)
    ensures FormsConsistent(BuildForms(qs, |qs|).value)
    ensures DistinctNames(BuildForms(qs, |qs|).value)
  {
    var forms := BuildForms(qs, |qs|).value;
    forall a, b | 0 <= a < b < |forms| ensures forms[a].config.name != forms[b].config.name {
      assert BuiltFrom(forms[a], qs[a]) && BuiltFrom(forms[b], qs[b]);
      assert Lower(qs[a].name.value) != Lower(qs[b].name.value);
    }
  }

  /** On success the answers are keyed by the names of the asked questions,
      each holding its finished answer. */
  lemma PromptAnswers(questions: Questions, sessions: seq<Session>, i: nat)
    requires PromptSpec(questions, sessions).Ok?
    ensures Ready(AsList(questions))
    ensures var forms := BuildForms(AsList(questions), |AsList(questions)|).value;
      && PromptSpec(questions, sessions).value.Keys == AskedNames(forms, sessions, |forms|)
      && (i < |forms| && Asked(forms, sessions, i) ==>
            && RawAnswer(forms[i], SessionAt(sessions, i)).Ok?
            && forms[i].config.name in PromptSpec(questions, sessions).value
            && PromptSpec(questions, sessions).value[forms[i].config.name]
               == Finish(forms[i].config, RawAnswer(forms[i], SessionAt(sessions, i)).value))
  {
    var qs := AsList(questions);
    PromptRunsBuiltForms(questions, sessions);
    ReadyFormsDistinct(qs);
    var forms := BuildForms(qs, |qs|).value;
    RunAllKeys(forms, sessions, |forms|);
    if i < |forms| && Asked(forms, sessions, i) {
      AskedAnswerKept(forms, sessions, |forms|, i);
    }
  }
}
