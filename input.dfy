/** The free-text Input form (reptile/forms/input.py): the validator wrapper
    that turns a validation function's result into "no error" or an error
    with a message, and the prompt that returns the first submitted text the
    validator accepts. */
module Input {
  import opened PyValue

  /** The message of an error raised for a falsy, non-string result. */
  const GenericMessage: string := "The input was not validated succesfully."

  /** The error the validator raises to keep the prompt open. */
  datatype ValidationError = ValidationError(message: string, cursorPosition: nat)

  /** The decision of `InputValidator.validate` once the wrapped function
      has returned `validation` for the buffer `text`. */
  function Encode(validation: Value, text: string): (r: Option<ValidationError>)
    ensures !validation.PyStr? ==> (r.None? <==> !IsFalsy(validation))
    ensures !validation.PyStr? && r.Some? ==> r.value.message == GenericMessage
    ensures validation.PyStr? ==> (r.None? <==> validation.s == "")
    ensures validation.PyStr? && r.Some? ==> r.value.message == validation.s
    ensures r.Some? ==> r.value.cursorPosition == |text|
  {
    var generic := if IsFalsy(validation) then GenericMessage else "";
    var message := if validation.PyStr? then validation.s else generic;
    if message != "" then Some(ValidationError(message, |text|)) else None
  }

  /** `True`, and every truthy non-string result, raises nothing. */
  lemma TrueIsValid(text: string)
    ensures Encode(PyBool(true), text).None?
    ensures forall v: Value :: !v.PyStr? && !IsFalsy(v) ==> Encode(v, text).None?
  {
  }

  /** The empty string is falsy and a string, and the string wins: the
      message is empty, so no error is raised and the text is accepted. */
  lemma EmptyStringIsValid(text: string)
    ensures Encode(PyStr(""), text).None?
  {
  }

  /** A validation function wrapped for the prompt. */
  datatype InputValidator = InputValidator(check: Value -> Value) {
    /** `InputValidator.validate` on a document whose text is `text`. */
    function Validate(text: string): (r: Option<ValidationError>)
      ensures var v := check(PyStr(text));
        r.None? <==> (if v.PyStr? then v.s == "" else !IsFalsy(v))
      ensures var v := check(PyStr(text));
        r.Some? ==> r.value.message == (if v.PyStr? then v.s else GenericMessage)
      ensures r.Some? ==> r.value.cursorPosition == |text|
    {
      Encode(check(PyStr(text)), text)
    }
  }

  /** The `_validator` field that `InputForm.__init__` sets. */
  function MakeValidator(validate: Option<Value -> Value>): (v: Option<InputValidator>)
    ensures v.Some? <==> validate.Some?
    ensures v.Some? ==> v.value.check == validate.value
  {
    if validate.Some? then Some(InputValidator(validate.value)) else None
  }

  /** The prompt lets `text` through: no validator, or no error raised. */
  predicate Accepts(validator: Option<InputValidator>, text: string)
    ensures validator.None? ==> Accepts(validator, text)
    ensures validator.Some? ==>
      var v := validator.value.check(PyStr(text));
      (Accepts(validator, text) <==> if v.PyStr? then v.s == "" else !IsFalsy(v))
  {
    validator.None? || validator.value.Validate(text).None?
  }

  /** The text the prompt returns for the texts submitted with enter; `None`
      when every submitted text is rejected. */
  function Commit(validator: Option<InputValidator>, lines: seq<string>): (r: Option<string>)
    ensures r.Some? ==> r.value in lines && Accepts(validator, r.value)
  {
    if lines == [] then None
    else if Accepts(validator, lines[0]) then Some(lines[0])
    else Commit(validator, lines[1..])
  }

  /** The returned text is the first accepted one, and nothing is returned
      only when every text is rejected. */
  lemma {:induction false} CommitIsFirstAccepted(validator: Option<InputValidator>, lines: seq<string>)
    ensures Commit(validator, lines).None? ==> forall k :: 0 <= k < |lines| ==> !Accepts(validator, lines[k])
    ensures Commit(validator, lines).Some? ==>
      exists k :: 0 <= k < |lines| && lines[k] == Commit(validator, lines).value
                && forall j :: 0 <= j < k ==> !Accepts(validator, lines[j])
  {
    if lines != [] && !Accepts(validator, lines[0]) {
      CommitIsFirstAccepted(validator, lines[1..]);
      if Commit(validator, lines).Some? {
        var k :| 0 <= k < |lines[1..]| && lines[1..][k] == Commit(validator, lines[1..]).value
                 && forall j :: 0 <= j < k ==> !Accepts(validator, lines[1..][j]);
        assert lines[k + 1] == Commit(validator, lines).value;
        assert forall j :: 0 <= j < k + 1 ==> !Accepts(validator, lines[j]) by {
          forall j | 0 <= j < k + 1 ensures !Accepts(validator, lines[j]) {
            if j > 0 {
              assert lines[j] == lines[1..][j - 1];
            }
          }
        }
      } else {
        forall k | 0 <= k < |lines| ensures !Accepts(validator, lines[k]) {
          if k > 0 {
            assert lines[k] == lines[1..][k - 1];
          }
        }
      }
    }
  }

  /** Without a validator the first submitted text is returned. */
  lemma NoValidatorTakesFirst(lines: seq<string>)
    requires lines != []
    ensures Commit(None, lines) == Some(lines[0])
  {
  }

  datatype TokenKind = QuestionMark | Question | Instruction

  /** One styled fragment of the prompt line. */
  datatype Token = Token(kind: TokenKind, text: string)

  /** `InputForm._format_message`: the question mark, then the message
      followed by a space. */
  function FormatMessage(message: string): (r: seq<Token>)
    ensures |r| == 2 && r[0] == Token(QuestionMark, "[?] ") && r[1].kind == Question
    ensures |r[1].text| == |message| + 1
    ensures r[1].text[..|message|] == message && r[1].text[|message|] == ' '
  {
    [Token(QuestionMark, "[?] "), Token(Question, message + " ")]
  }

  class InputForm {
    const validator: Option<InputValidator>

    /** `InputForm.__init__`: a validator wrapper exactly when `Validate`
        was supplied. */
    constructor (validate: Option<Value -> Value>)
      ensures validator == MakeValidator(validate)
    {
      validator := MakeValidator(validate);
    }

    /** The prompt fed with the texts submitted with enter: each is
        validated, a rejected one keeps the prompt open, and the first
        accepted one is returned. */
    method Run(lines: seq<string>) returns (answer: Option<string>)
      ensures answer == Commit(validator, lines)
    {
      var i := 0;
      while i < |lines|
        invariant 0 <= i <= |lines|
        invariant Commit(validator, lines) == Commit(validator, lines[i..])
      {
        assert lines[i..][1..] == lines[i + 1..];
        var text := lines[i];
        var error := if validator.Some? then validator.value.Validate(text) else None;
        if error.None? {
          return Some(text);
        }
        i := i + 1;
      }
      return None;
    }
  }
}
