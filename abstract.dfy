/** The part every form shares (reptile/forms/abstract.py): the fields read
    from a question's keyword arguments, and the answer pipeline that skips a
    question, substitutes a default for a falsy answer and applies the
    transform. */
module Abstract {
  import opened PyValue

  /** The answers collected so far, keyed by question name. */
  type Answers = map<string, Value>

  /** A question as the caller writes it: each optional keyword is an
      `Option`, so that an absent `Default` differs from `Default: None`. */
  datatype Question = Question(
    name: Option<string>,
    message: string,
    formType: Option<string>,
    choices: Option<seq<Value>>,
    values: Option<seq<Value>>,
    validate: Option<Value -> Value>,
    transform: Option<Value -> Value>,
    when: Option<Answers -> Value>,
    default: Option<Value>,
    style: Option<Value>)

  /** Why building a form fails: `len(None)` on missing Choices (a
      TypeError), or Values and Choices of different lengths (the assert). */
  datatype InitError = ChoicesMissing | LengthMismatch

  /** The fields of a constructed form. They are never reassigned after
      construction. `default` is `None` exactly when the form has no
      `_default` attribute. */
  datatype Config = Config(
    name: string,
    message: string,
    choices: Option<seq<Value>>,
    values: Option<seq<Value>>,
    validate: Option<Value -> Value>,
    transform: Option<Value -> Value>,
    when: Option<Answers -> Value>,
    style: Option<Value>,
    default: Option<Value>)

  /** What every successfully constructed form satisfies: truthy values come
      with choices of the same length, and non-empty choices come with
      values. */
  predicate Consistent(c: Config)
  {
    && (IsTruthyList(c.values) ==> c.choices.Some? && |c.values.value| == |c.choices.value|)
    && (IsTruthyList(c.choices) ==> IsTruthyList(c.values))
  }

  /** `AbstractForm.__init__`: Values falls back to Choices, the length
      check runs when the resulting values are truthy, and `Default` is kept
      exactly as supplied (present or absent). */
  function Init(q: Question): (r: Result<Config, InitError>)
    requires q.name.Some?
    ensures !IsTruthyList(q.values) ==> r.Ok? && r.value.values == q.choices
    ensures IsTruthyList(q.values) ==>
      (r.Ok? <==> q.choices.Some? && |q.values.value| == |q.choices.value|)
    ensures IsTruthyList(q.values) && r.Ok? ==> r.value.values == q.values
    ensures r == Err(ChoicesMissing) <==> IsTruthyList(q.values) && q.choices.None?
    ensures r.Ok? ==> Consistent(r.value)
    ensures r.Ok? ==>
      && r.value.name == q.name.value && r.value.message == q.message
      && r.value.choices == q.choices && r.value.default == q.default
      && r.value.validate == q.validate && r.value.transform == q.transform
      && r.value.when == q.when && r.value.style == q.style
  {
    var values := if IsTruthyList(q.values) then q.values else q.choices;
    if IsTruthyList(values) && q.choices.None? then Err(ChoicesMissing)
    else if IsTruthyList(values) && |values.value| != |q.choices.value| then Err(LengthMismatch)
    else Ok(Config(q.name.value, q.message, q.choices, values, q.validate,
                   q.transform, q.when, q.style, q.default))
  }

  /** `not self._when or self._when(answers)`: a question without `When`
      is always asked; otherwise `When`, called on the answers so far,
      decides by its truthiness. */
  predicate ShouldAsk(c: Config, answers: Answers)
    ensures c.when.None? ==> ShouldAsk(c, answers)
    ensures c.when.Some? ==> (ShouldAsk(c, answers) <==> !IsFalsy(c.when.value(answers)))
  {
    c.when.None? || !IsFalsy(c.when.value(answers))
  }

  /** The default substitution step: a falsy answer is replaced when, and
      only when, a default was supplied. */
  function WithDefault(c: Config, v: Value): (r: Value)
    ensures IsFalsy(v) && c.default.Some? ==> r == c.default.value
    ensures r == v || (IsFalsy(v) && c.default.Some? && r == c.default.value)
  {
    if IsFalsy(v) && c.default.Some? then c.default.value else v
  }

  /** The transform step (identity when no transform was supplied). */
  function WithTransform(c: Config, v: Value): (r: Value)
    ensures c.transform.None? ==> r == v
    ensures c.transform.Some? ==> r == c.transform.value(v)
  {
    if c.transform.Some? then c.transform.value(v) else v
  }

  /** The stored answer for a raw answer: default first, then transform. */
  function Finish(c: Config, raw: Value): (r: Value)
    ensures c.transform.None? ==> r == WithDefault(c, raw)
    ensures c.transform.Some? ==> r == c.transform.value(WithDefault(c, raw))
    ensures c.default.None? ==> r == WithTransform(c, raw)
  {
    WithTransform(c, WithDefault(c, raw))
  }

  /** The answers after an asked question: only the question's own entry
      is written, and it holds the finished answer. */
  function Record(c: Config, answers: Answers, raw: Value): (r: Answers)
    ensures c.name in r && r[c.name] == Finish(c, raw)
    ensures forall k :: k != c.name ==> (k in r <==> k in answers)
    ensures forall k :: k != c.name && k in answers ==> r[k] == answers[k]
  {
    answers[c.name := Finish(c, raw)]
  }

  /** A falsy answer becomes the default whenever a `Default` key was
      supplied, even a falsy or `None` default. */
  lemma DefaultReplacesFalsy(c: Config, raw: Value)
    requires IsFalsy(raw) && c.default.Some? && c.transform.None?
    ensures Finish(c, raw) == c.default.value
  {
  }

  /** Without a `Default` key the answer is stored as given, falsy or not. */
  lemma NoDefaultKeepsAnswer(c: Config, raw: Value)
    requires c.default.None? && c.transform.None?
    ensures Finish(c, raw) == raw
  {
  }

  /** A truthy answer is never replaced by the default. */
  lemma TruthyAnswerKept(c: Config, raw: Value)
    requires !IsFalsy(raw) && c.transform.None?
    ensures Finish(c, raw) == raw
  {
  }

  /** The transform is applied once, to the value after default
      substitution. */
  lemma TransformSeesDefaulted(c: Config, raw: Value)
    requires c.transform.Some?
    ensures Finish(c, raw) == c.transform.value(WithDefault(c, raw))
    ensures IsFalsy(raw) && c.default.Some? ==> Finish(c, raw) == c.transform.value(c.default.value)
  {
  }

  /** The shared answers dict that the forms write into, in place. */
  class AnswerDict {
    var entries: Answers

    constructor ()
      ensures entries == map[]
    {
      entries := map[];
    }
  }
}
