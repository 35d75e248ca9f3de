/** The four form kinds behind one interface: the raw answer each kind
    obtains from its terminal session (`_ask_question`), and the shared
    `ask_question` that decides whether to ask and post-processes the answer
    into the answers dict (reptile/forms/abstract.py). */
module Forms {
  import opened PyValue
  import opened Terminal
  import opened Abstract
  import Checkbox
  import List
  import Input
  import Confirm

  /** The form classes that a question's `Type` selects. */
  datatype FormType = CheckboxType | ConfirmType | InputType | ListType

  /** A constructed form: its kind and the fields its constructor set. */
  datatype Form = Form(kind: FormType, config: Config)

  /** Why asking a form yields no answer: a List or Checkbox without choices
      to show, or a Checkbox over no rows that is sent a key touching a row
      (the source raises a TypeError or IndexError; one raised inside a key
      handler is printed by prompt_toolkit and the widget goes on, which is
      not modelled), or a session that ends before the form commits (the
      source keeps waiting). */
  datatype AskError = NoChoices | NoCommit

  /** A Checkbox whose choice list is empty: there are no rows and the
      cursor stays at 0. Enter commits the empty selection once the
      validator accepts it; space and down index the missing row 0; up,
      `a`, `i` and other keys do nothing. */
  function EmptyCheckboxAnswer(validate: Option<Value -> Value>, keys: seq<Key>): (r: Result<Value, AskError>)
    ensures r.Ok? ==> r.value == PyList([]) && Checkbox.Verdict(Checkbox.ValidationResult(validate, [])).None?
    ensures r.Ok? ==> Terminal.Enter in keys
  {
    if keys == [] then Err(NoCommit)
    else
      match keys[0]
      case Enter =>
        if Checkbox.Verdict(Checkbox.ValidationResult(validate, [])).None? then Ok(PyList([]))
        else EmptyCheckboxAnswer(validate, keys[1..])
      case Down => Err(NoChoices)
      case Up => EmptyCheckboxAnswer(validate, keys[1..])
      case Char(c) => if c == ' ' then Err(NoChoices) else EmptyCheckboxAnswer(validate, keys[1..])
  }

  /** The raw answer a form's widget produces from a session, before the
      default and the transform. */
  function RawAnswer(f: Form, s: Session): (r: Result<Value, AskError>)
    requires Consistent(f.config)
    ensures f.kind == InputType && r.Ok? ==> r.value.PyStr? && r.value.s in s.lines
    ensures f.kind == InputType && r.Ok? ==> Input.Accepts(Input.MakeValidator(f.config.validate), r.value.s)
    ensures f.kind == ConfirmType && r.Ok? ==> r.value.PyBool?
    ensures f.kind == ListType && r.Ok? ==> f.config.values.Some? && r.value in f.config.values.value
    ensures f.kind == CheckboxType && r.Ok? ==>
      && r.value.PyList?
      && (forall x :: x in r.value.items ==> f.config.values.Some? && x in f.config.values.value)
      && Checkbox.Verdict(Checkbox.ValidationResult(f.config.validate, r.value.items)).None?
    ensures f.kind == ListType && !IsTruthyList(f.config.choices) ==> r == Err(NoChoices)
    ensures f.kind == CheckboxType && f.config.choices.None? ==> r == Err(NoChoices)
    ensures f.kind == CheckboxType && f.config.choices == Some([]) ==>
      r == EmptyCheckboxAnswer(f.config.validate, s.keys)
  {
    var c := f.config;
    match f.kind
    case InputType =>
      (match Input.Commit(Input.MakeValidator(c.validate), s.lines)
       case None => Err(NoCommit)
       case Some(text) => Ok(PyStr(text)))
    case ConfirmType =>
      (match Confirm.Commit(s.keys)
       case None => Err(NoCommit)
       case Some(b) => Ok(PyBool(b)))
    case ListType =>
      if !IsTruthyList(c.choices) then Err(NoChoices)
      else
        (match List.Commit(|c.choices.value|, 0, s.keys)
         case None => Err(NoCommit)
         case Some(i) => Ok(c.values.value[i]))
    case CheckboxType =>
      if c.choices.None? then Err(NoChoices)
      else if c.choices.value == [] then EmptyCheckboxAnswer(c.validate, s.keys)
      else
        match Checkbox.Commit(c.values.value, c.validate, 0, {}, s.keys)
        case None => Err(NoCommit)
        case Some(selection) => Ok(PyList(selection))
  }

  /** `_ask_question` of each kind: builds the kind's widget state, runs it
      on the session, and returns what it commits. */
  method AskRaw(f: Form, s: Session) returns (r: Result<Value, AskError>)
    requires Consistent(f.config)
    ensures r == RawAnswer(f, s)
  {
    var c := f.config;
    match f.kind {
      case InputType =>
        var form := new Input.InputForm(c.validate);
        var text := form.Run(s.lines);
        r := if text.Some? then Ok(PyStr(text.value)) else Err(NoCommit);
      case ConfirmType =>
        var form := new Confirm.ConfirmForm();
        var b := form.Run(s.keys);
        r := if b.Some? then Ok(PyBool(b.value)) else Err(NoCommit);
      case ListType =>
        if !IsTruthyList(c.choices) {
          return Err(NoChoices);
        }
        var form := new List.ListForm(c.choices.value, c.values.value);
        var v := form.Run(s.keys);
        r := if v.Some? then Ok(v.value) else Err(NoCommit);
      case CheckboxType =>
        if c.choices.None? {
          return Err(NoChoices);
        }
        if c.choices.value == [] {
          return EmptyCheckboxAnswer(c.validate, s.keys);
        }
        var form := new Checkbox.CheckboxForm(c.choices.value, c.values.value, c.validate);
        var selection := form.Run(s.keys);
        r := if selection.Some? then Ok(PyList(selection.value)) else Err(NoCommit);
    }
  }

  /** `ask_question` on answer maps: a skipped question leaves the answers
      exactly as they were; an asked one writes its own entry and no other. */
  function AskSpec(f: Form, answers: Answers, s: Session): (r: Result<Answers, AskError>)
    requires Consistent(f.config)
    ensures !ShouldAsk(f.config, answers) ==> r == Ok(answers)
    ensures r.Ok? && ShouldAsk(f.config, answers) ==>
      RawAnswer(f, s).Ok? && f.config.name in r.value && r.value[f.config.name] == Finish(f.config, RawAnswer(f, s).value)
    ensures r.Ok? ==> forall k :: k != f.config.name ==> (k in r.value <==> k in answers)
    ensures r.Ok? ==> forall k :: k != f.config.name && k in answers ==> r.value[k] == answers[k]
    ensures r.Err? ==> ShouldAsk(f.config, answers) && RawAnswer(f, s) == Err(r.error)
  {
    if !ShouldAsk(f.config, answers) then Ok(answers)
    else
      match RawAnswer(f, s)
      case Err(e) => Err(e)
      case Ok(raw) => Ok(Record(f.config, answers, raw))
  }

  /** `AbstractForm.ask_question`: when the question is asked, the raw
      answer is written into the shared dict, replaced by the default when
      it is falsy and a default exists, and then transformed, in place. */
  method AskQuestion(f: Form, answers: AnswerDict, s: Session) returns (err: Option<AskError>)
    requires Consistent(f.config)
    modifies answers
    ensures AskSpec(f, old(answers.entries), s) == (if err.Some? then Err(err.value) else Ok(answers.entries))
    ensures err.Some? ==> answers.entries == old(answers.entries)
  {
    var c := f.config;
    if c.when.None? || !IsFalsy(c.when.value(answers.entries)) {
      var raw := AskRaw(f, s);
      if raw.Err? {
        return Some(raw.error);
      }
      answers.entries := answers.entries[c.name := raw.value];
      if IsFalsy(answers.entries[c.name]) && c.default.Some? {
        answers.entries := answers.entries[c.name := c.default.value];
      }
      assert answers.entries == old(answers.entries)[c.name := WithDefault(c, raw.value)];
      if c.transform.Some? {
        answers.entries := answers.entries[c.name := c.transform.value(answers.entries[c.name])];
      }
      assert answers.entries == Record(c, old(answers.entries), raw.value);
    }
    return None;
  }

  /** A Confirm answered with n is an ordinary falsy answer: it is replaced
      by a supplied default, and the transform then sees the default. */
  lemma ConfirmNoTakesDefault(f: Form, answers: Answers, s: Session)
    requires f.kind == ConfirmType && Consistent(f.config)
    requires ShouldAsk(f.config, answers) && Confirm.Commit(s.keys) == Some(false)
    requires f.config.default.Some?
    ensures AskSpec(f, answers, s) == Ok(answers[f.config.name := WithTransform(f.config, f.config.default.value)])
  {
  }

  /** A Checkbox committed with nothing selected stores the default when one
      was supplied. */
  lemma EmptyCheckboxTakesDefault(f: Form, answers: Answers, s: Session)
    requires f.kind == CheckboxType && Consistent(f.config) && IsTruthyList(f.config.choices)
    requires f.config.validate.None? && f.config.transform.None? && f.config.default.Some?
    requires ShouldAsk(f.config, answers) && s.keys == [Terminal.Enter]
    ensures AskSpec(f, answers, s) == Ok(answers[f.config.name := f.config.default.value])
  {
    Checkbox.EmptySelection(f.config.values.value);
  }

  /** A List over the choices A, B, C, D without its own values: two
      downs and an enter answer "C". */
  lemma ListTwoDownsAnswersThird(f: Form, s: Session)
    requires f.kind == ListType && Consistent(f.config)
    requires f.config.choices == Some([PyStr("A"), PyStr("B"), PyStr("C"), PyStr("D")])
    requires f.config.values == f.config.choices
    requires s.keys == [Terminal.Down, Terminal.Down, Terminal.Enter]
    ensures RawAnswer(f, s) == Ok(PyStr("C"))
  {
    var keys := s.keys;
    assert keys[1..] == [Terminal.Down, Terminal.Enter];
    assert keys[1..][1..] == [Terminal.Enter];
    assert List.Commit(4, 2, [Terminal.Enter]) == Some(2);
    assert List.Commit(4, 1, keys[1..]) == Some(2);
    assert List.Commit(4, 0, keys) == Some(2);
  }

  /** An Input with default 42 and no transform stores 42, not the empty
      string, when the empty text is submitted. */
  lemma EmptyInputTakesDefault(f: Form, answers: Answers, s: Session)
    requires f.kind == InputType && Consistent(f.config) && ShouldAsk(f.config, answers)
    requires f.config.validate.None? && f.config.transform.None?
    requires f.config.default == Some(PyInt(42)) && s.lines == [""]
    ensures AskSpec(f, answers, s) == Ok(answers[f.config.name := PyInt(42)])
  {
  }

  /** The transform runs on the typed text, after the default step: with
      a doubling transform the text "21" is stored as "2121". */
  lemma TransformRunsOnTypedText(f: Form, answers: Answers, s: Session)
    requires f.kind == InputType && Consistent(f.config) && ShouldAsk(f.config, answers)
    requires f.config.validate.None? && f.config.default == Some(PyInt(42))
    requires f.config.transform == Some((x: Value) => if x.PyStr? then PyStr(x.s + x.s) else x)
    requires s.lines == ["21"]
    ensures AskSpec(f, answers, s) == Ok(answers[f.config.name := PyStr("2121")])
  {
    assert RawAnswer(f, s) == Ok(PyStr("21"));
    assert "21" + "21" == "2121";
  }
}
