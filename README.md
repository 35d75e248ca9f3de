# Reptile question forms in Dafny

Reptile asks a batch of terminal questions and returns a dict of answers.
Each question is a dict of keyword fields: `Name`, `Message`, `Type`,
`Choices`, `Values`, `Validate`, `Transform`, `When`, `Default` and `Style`.
`prompt` first checks the batch. Every question must be named, the names
must be unique ignoring case, and every `Type` must be one of `Checkbox`,
`Confirm`, `Input` and `List`. It then builds one form per question and
runs the forms in order. All forms write into one shared answers dict.

The model has one module per source file:

- `PyValue`: Python values and their truthiness, plus `Option`, `Result` and an ASCII `lower`.
- `Terminal`: the user's side of a session. It is a sequence of key presses, and for Input, a sequence of texts submitted with enter.
- `Abstract`: the question and the fields `__init__` reads from it (`Init`), plus the shared answer pipeline. The pipeline skips a question when `When` says so, replaces a falsy answer with a supplied `Default`, then applies `Transform`. The answers dict is the class `AnswerDict`.
- `Multi`: the cursor that List and Checkbox share. It is the class `MultiForm`, with its row array and up/down moves.
- `Checkbox`: the class `CheckboxForm`. It holds the selected set, the space/`a`/`i`/enter handlers and the validator verdict.
- `List`: the class `ListForm`. Enter commits the value at the cursor.
- `Input`: the validator wrapper, the prompt message, and the class `InputForm`.
- `Confirm`: the y/n key handlers and the class `ConfirmForm`.
- `Forms`: the four kinds as one tagged union.
  - `RawAnswer` is what each kind's `_ask_question` obtains.
  - `AskQuestion` is `ask_question`. It acts on the shared `AnswerDict` in place.
- `Reptile`: `prompt`. It covers the three checks, the style defaulting, building the forms (`BuildAll`) and running them (`AskAll`).

Each widget event loop is a `Run` method. It feeds keys to the handler methods until one of them commits. Each `Run` is proved equal to a pure `Commit` function. For List, Checkbox and Confirm it works over the key sequence; for Input it works over the submitted texts. The lemmas are proved about those functions. `PromptSpec` is the pure specification of `prompt`, and the `Prompt` method is proved to compute it.

The docstrings and the code disagree in a few places. The model follows the code:

- The docstrings (reptile/forms/abstract.py:29-33, reptile/forms/input.py:18-21) say a validator returns True, False or an error string, and that a string always means invalid.
- The Input validator accepts an empty-string result, because its message is empty (reptile/forms/input.py:35-40).
- A Checkbox commits only on a result that `is True`, and refuses every other result (reptile/forms/checkbox.py:33-39). A string is shown as the message. Every other result, such as `1`, gets the generic message.
- The accepted type names are exactly those of `ACCEPTED_TYPES` (reptile/reptile.py:35): `Checkbox`, `Confirm`, `Input` and `List`.

## Model

| member | source | states |
|---|---|---|
| Abstract.Init | reptile/forms/abstract.py:45-64 | Values falls back to Choices when absent or empty. Construction fails exactly when the resulting values are truthy and Choices is missing or of another length. `Default` is kept present or absent as supplied. Every field is copied, and the result is consistent. |
| Abstract.ShouldAsk | reptile/forms/abstract.py:98 | The reference definition of the `When` gate: a question without `When` is always asked; otherwise it is asked exactly when `When`, called on the answers so far, gives a truthy result. `Forms.AskSpec` builds on it. |
| Abstract.WithDefault | reptile/forms/abstract.py:100-101 | The reference definition of the default step: a falsy answer with a supplied default becomes that default, and every other answer is kept. `Abstract.DefaultReplacesFalsy`, `NoDefaultKeepsAnswer` and `TruthyAnswerKept` describe it. |
| Abstract.WithTransform | reptile/forms/abstract.py:102-103 | The reference definition of the transform step: without `Transform` the value is kept; with one, the stored value is the transform of it. |
| Abstract.Finish | reptile/forms/abstract.py:100-103 | The reference definition of the stored answer: the defaulted answer, then transformed. `Abstract.TransformSeesDefaulted` describes the order, and `Forms.AskQuestion` is proved to write it. |
| Abstract.Record | reptile/forms/abstract.py:98-103 | An asked question writes only its own key, and that entry holds the finished answer. Every other key is unchanged. |
| Abstract.AnswerDict.constructor | reptile/reptile.py:113 | The shared answers dict starts empty. |
| Abstract.DefaultReplacesFalsy | reptile/forms/abstract.py:100-101 | A falsy answer becomes the supplied default, even a falsy or None default. |
| Abstract.NoDefaultKeepsAnswer | reptile/forms/abstract.py:59-64 | Without a `Default` key the raw answer is stored unchanged, falsy or not. |
| Abstract.TruthyAnswerKept | reptile/forms/abstract.py:100-101 | A truthy answer is never replaced by the default. |
| Abstract.TransformSeesDefaulted | reptile/forms/abstract.py:100-103 | The transform is applied once, to the value after default substitution. |
| Multi.CursorUp | reptile/forms/multi.py:56-60 | Up moves the cursor at most one row up. It stays put exactly at row 0. |
| Multi.CursorDown | reptile/forms/multi.py:71-76 | Down moves the cursor at most one row down. It stays put exactly at the last row. |
| Multi.CursorMovesStayInRange | reptile/forms/multi.py:47-76 | Over a non-empty row list, moving up or down never leaves the rows. |
| Multi.GenerateChoicesWindows | reptile/forms/multi.py:93-116 | There is one row per choice, holding the choice's text. Only row 0 has the pointer. The selector is present and unselected exactly in Checkbox mode. |
| Multi.MultiForm.constructor | reptile/forms/multi.py:21-23 | The cursor starts at 0, on the row that carries the pointer. |
| Multi.MultiForm.MoveUp | reptile/forms/multi.py:47-60 | At row 0 nothing happens; otherwise the cursor goes up one row. Afterwards exactly the cursor row carries the pointer, and no other row field changes. |
| Multi.MultiForm.MoveDown | reptile/forms/multi.py:62-76 | At the last row nothing happens; otherwise the cursor goes down one row. Afterwards exactly the cursor row carries the pointer, and no other row field changes. |
| Checkbox.Toggle | reptile/forms/checkbox.py:41-48 | Space flips membership of the cursor row and keeps every other row's membership. |
| Checkbox.Inverted | reptile/forms/checkbox.py:56-64 | `i` selects exactly the rows below N that were not selected. |
| Checkbox.InvertInvolution | reptile/forms/checkbox.py:56-64 | Inverting twice restores any selection within the rows. |
| Checkbox.SortedIndices | reptile/forms/checkbox.py:29 | The result holds exactly the selected row indices, strictly ascending. |
| Checkbox.SortedIndicesOfAll | reptile/forms/checkbox.py:29 | With every row selected the sorted indices are 0 to N-1. |
| Checkbox.Selection | reptile/forms/checkbox.py:29 | The selection only holds elements of `values`. |
| Checkbox.SelectAllGivesValues | reptile/forms/checkbox.py:50-54 | After select-all, the selection is the whole `values` list in its original order. |
| Checkbox.EmptySelection | reptile/forms/checkbox.py:21 | The initial empty set selects the empty list. |
| Checkbox.ValidationResult | reptile/forms/checkbox.py:30-32 | Without a validator the result is `True`; with one, it is the validator applied to the selection list. |
| Checkbox.Verdict | reptile/forms/checkbox.py:30-39 | Enter commits exactly when the validator returns `True`. A string result is shown as the message; any other result shows the generic message. |
| Checkbox.Commit | reptile/forms/checkbox.py:27-64 | A committed selection passed the validator and holds only elements of `values`. |
| Checkbox.SelectAllThenEnter | reptile/forms/checkbox.py:50-54 | When the validator accepts the full list (or there is none), `a` then enter commits all values in order, whatever was selected before. |
| Checkbox.RefusedEnterKeepsSelection | reptile/forms/checkbox.py:33-39 | A refused enter leaves the cursor and the selection as they were. |
| Checkbox.InvertTwiceIsNoOp | reptile/forms/checkbox.py:56-64 | Pressing `i` twice changes nothing about how the session ends. |
| Checkbox.CheckboxForm.constructor | reptile/forms/checkbox.py:19-21 | The selected set starts empty and every row shows unselected. |
| Checkbox.CheckboxForm.Select | reptile/forms/checkbox.py:66-69 | Only row i's selector changes, to selected. |
| Checkbox.CheckboxForm.Deselect | reptile/forms/checkbox.py:71-74 | Only row i's selector changes, to unselected. |
| Checkbox.CheckboxForm.DisplayError | reptile/forms/checkbox.py:76-86 | The error message shown becomes the given message. |
| Checkbox.CheckboxForm.Click | reptile/forms/checkbox.py:41-48 | The cursor index is toggled in the set. The rows keep showing exactly the selected set. |
| Checkbox.CheckboxForm.SelectAll | reptile/forms/checkbox.py:50-54 | The set becomes all row indices and every row shows selected. |
| Checkbox.CheckboxForm.InvertAll | reptile/forms/checkbox.py:56-64 | The set becomes its complement within the rows, and the marks follow it. |
| Checkbox.CheckboxForm.Enter | reptile/forms/checkbox.py:27-39 | The selection is recomputed. Accepted: the form exits. Refused: the verdict's message is shown and the set is unchanged. |
| Checkbox.CheckboxForm.Run | reptile/forms/checkbox.py:99-121 | The event loop returns what `Checkbox.Commit` specifies for the keys, from the form's initial cursor and set. |
| List.Commit | reptile/forms/multi.py:47-76 | The key semantics of the up and down moves (reptile/forms/multi.py:47-76) and of enter (reptile/forms/list.py:28-30), whose row list.py:46 reads. A committed row index is always within the rows. |
| List.EnterCommitsCursor | reptile/forms/list.py:28-30 | Enter commits the cursor row at once, with no validation. |
| List.CommitsIffEnter | reptile/forms/list.py:28-30 | A List commits exactly when the keys contain an enter. |
| List.ListForm.constructor | reptile/forms/list.py:21-23 | The form keeps its values and starts with the cursor at 0. |
| List.ListForm.Enter | reptile/forms/list.py:28-30 | Enter exits unconditionally. |
| List.ListForm.Run | reptile/forms/list.py:32-46 | The answer is `values` at the row `List.Commit` selects. |
| Input.Encode | reptile/forms/input.py:30-43 | A non-string result raises no error iff truthy; a falsy one raises the generic message. A string raises iff non-empty, with itself as the message. The error's cursor position is the text length. |
| Input.TrueIsValid | reptile/forms/input.py:35-43 | `True` and every truthy non-string result are accepted. |
| Input.EmptyStringIsValid | reptile/forms/input.py:35-40 | An empty-string result is accepted. |
| Input.InputValidator.Validate | reptile/forms/input.py:30-43 | The wrapped function is called on the buffer text. No error iff its result is the empty string or a truthy non-string. Otherwise the message is the string result or the generic message, at the text's end. |
| Input.MakeValidator | reptile/forms/input.py:53-58 | A validator wrapper exists iff `Validate` was supplied, and it wraps that function. |
| Input.Accepts | reptile/forms/input.py:69-75 | The prompt lets a text through when there is no validator. With one, it lets the text through exactly when the wrapped function's result is the empty string or a truthy non-string. |
| Input.Commit | reptile/forms/input.py:69-75 | The returned text is one of the submitted texts and the validator accepts it. |
| Input.CommitIsFirstAccepted | reptile/forms/input.py:69-75 | The answer is the first accepted submission. No answer means every submission was rejected. |
| Input.NoValidatorTakesFirst | reptile/forms/input.py:55-58 | Without a validator the first submitted text is the answer. |
| Input.FormatMessage | reptile/forms/input.py:60-67 | The tokens are the question mark, then the message followed by one space. |
| Input.InputForm.constructor | reptile/forms/input.py:53-58 | The form's validator is the wrapper `MakeValidator` gives for `Validate`. |
| Input.InputForm.Run | reptile/forms/input.py:69-75 | The prompt returns what `Input.Commit` specifies for the submitted texts. |
| Confirm.Commit | reptile/forms/confirm.py:21-39 | The form commits iff some key is y/Y/n/N, and then the answer is one such key's result. |
| Confirm.KeyResult | reptile/forms/confirm.py:24-39 | y/Y gives True, n/N gives False, every other key gives nothing (both directions). |
| Confirm.CommitIsFirstAnswerKey | reptile/forms/confirm.py:21-39 | The first y/Y/n/N key decides the answer. Every key before it was swallowed. Without one the form does not commit. |
| Confirm.FormatMessage | reptile/forms/confirm.py:41-45 | The tokens are the Input prompt tokens followed by exactly one "(y/n) " instruction token. |
| Confirm.ConfirmForm.constructor | reptile/forms/confirm.py:48-53 | The buffer starts empty and the prompt has not exited. |
| Confirm.ConfirmForm.Yes | reptile/forms/confirm.py:24-28 | The buffer text becomes "y" and the result is True. |
| Confirm.ConfirmForm.No | reptile/forms/confirm.py:30-34 | The buffer text becomes "n" and the result is False. |
| Confirm.ConfirmForm.Press | reptile/forms/confirm.py:21-39 | y/Y and n/N commit; any other key changes neither the buffer nor the result. |
| Confirm.ConfirmForm.Run | reptile/forms/confirm.py:47-53 | The answer is what `Confirm.Commit` specifies, and the buffer shows the committing key's letter. No validator is consulted. |
| Forms.EmptyCheckboxAnswer | reptile/forms/checkbox.py:27-54 | A Checkbox over no rows can only commit the empty list, after an enter the validator accepts. |
| Forms.RawAnswer | reptile/forms/abstract.py:76-85 | Input answers an accepted submitted text; Confirm answers a boolean; List answers an element of `values`. Checkbox answers a validated list of elements of `values`. A List without choices, or a Checkbox with missing choices, fails. |
| Forms.AskRaw | reptile/forms/checkbox.py:99-121 | Building and running each kind's widget yields exactly `RawAnswer`. The other three `_ask_question` methods it covers are reptile/forms/list.py:32-46, reptile/forms/input.py:69-75 and reptile/forms/confirm.py:47-53. |
| Forms.AskSpec | reptile/forms/abstract.py:87-103 | A skipped question leaves the answers unchanged. An asked one stores its finished raw answer under its own name and changes no other key. A failure only comes from an asked question. |
| Forms.AskQuestion | reptile/forms/abstract.py:87-103 | The three in-place writes to the shared dict leave it as `AskSpec` specifies. When the form fails, the dict is left untouched. |
| Forms.ConfirmNoTakesDefault | reptile/forms/abstract.py:100-103 | A Confirm answered n stores the transformed default when a default exists. |
| Forms.EmptyCheckboxTakesDefault | reptile/forms/abstract.py:100-101 | A Checkbox committed with nothing selected stores the default. |
| Forms.ListTwoDownsAnswersThird | reptile/forms/list.py:46 | Over the choices A, B, C, D, two downs then enter answer "C". |
| Forms.EmptyInputTakesDefault | reptile/forms/abstract.py:100-101 | An empty submitted text with default 42 is stored as 42. |
| Forms.TransformRunsOnTypedText | reptile/forms/abstract.py:102-103 | A doubling transform stores "2121" for the typed text "21". The default is not used. |
| Reptile.AsList | reptile/reptile.py:107-108 | A single question becomes the one-element list. |
| Reptile.SingleIsOneElementList | reptile/reptile.py:107-108 | Prompting one question gives the same outcome as prompting the list holding it. |
| Reptile.KindOf | reptile/reptile.py:37-42 | Each accepted type name selects its own form kind (both directions). |
| Reptile.CheckQuestionsAreNamed | reptile/reptile.py:82-87 | Reports `UnnamedQuestion` exactly when some question lacks a truthy name. |
| Reptile.UnnamedRejected | reptile/reptile.py:82-87 | One unnamed question rejects the batch, whatever the sessions. |
| Reptile.CardinalityIffDistinct | reptile/reptile.py:91-93 | A list is as long as the set of its elements exactly when its elements are pairwise distinct. |
| Reptile.NamesAreUnique | reptile/reptile.py:89-95 | The batch passes iff no two names are equal after lower-casing. |
| Reptile.DuplicateNamesRejected | reptile/reptile.py:89-95 | Two names equal after lower-casing reject the batch, before any form runs. |
| Reptile.FormTypeError | reptile/reptile.py:99-105 | A missing Type gives `MissingFormType`; an unsupported one gives `InvalidFormType`. |
| Reptile.TypesCheck | reptile/reptile.py:97-105 | No error iff every type is accepted. Otherwise the error belongs to the first offender in list order. |
| Reptile.CheckValidFormTypes | reptile/reptile.py:97-105 | The checking loop returns what `TypesCheck` specifies. |
| Reptile.FirstTypeErrorRejected | reptile/reptile.py:97-105 | The first question with a bad type decides the batch's error. |
| Reptile.WithStyle | reptile/reptile.py:115-116 | A missing or falsy Style becomes `DEFAULT_STYLE`. A truthy one is kept, and nothing else changes. |
| Reptile.BuildForms | reptile/reptile.py:112-117 | Construction succeeds iff every question's constructor does. Each form is built from its question after style defaulting, and all are consistent. A failure is a constructor failure. |
| Reptile.BuildFormsErrPersists | reptile/reptile.py:114-117 | A constructor failure is the construction's failure. |
| Reptile.BuildFormsFirstFailure | reptile/reptile.py:114-117 | A failed construction reports the first question in list order whose constructor fails. |
| Reptile.BuildAll | reptile/reptile.py:112-117 | The construction loop returns what `BuildForms` specifies. |
| Reptile.RunAll | reptile/reptile.py:118-119 | A failed run fails with `AskFailed`, naming one of the forms run. |
| Reptile.RunAllErrPersists | reptile/reptile.py:118-119 | A failing form ends the run with its error. |
| Reptile.RunAllOkPrefix | reptile/reptile.py:118-119 | A successful run succeeded on every prefix. |
| Reptile.AskAll | reptile/reptile.py:118-120 | The run loop over the shared dict returns what `RunAll` specifies. |
| Reptile.PromptSpec | reptile/reptile.py:107-120 | An unnamed question gives `UnnamedQuestion`, checked before uniqueness, which gives `NotUniqueNames`. `prompt` succeeds or fails in a form exactly when the batch passed every check and every form was built. |
| Reptile.Prompt | reptile/reptile.py:65-120 | `prompt` returns exactly its specification `PromptSpec`. |
| Reptile.NotReadyIgnoresSessions | reptile/reptile.py:109-117 | A batch failing a check or a constructor fails whatever the sessions, so no form has run. |
| Reptile.RunAllKeys | reptile/reptile.py:118-120 | The result's keys are exactly the names of the asked forms; a skipped form is absent. |
| Reptile.AskedAnswerKept | reptile/reptile.py:118-120 | With distinct names, each asked form's entry survives the later forms and holds its finished answer. |
| Reptile.RunAllDependsOnPrefix | reptile/reptile.py:118-119 | The answers after n forms depend only on the first n forms and sessions. Each form sees only earlier answers. |
| Reptile.PromptRunsBuiltForms | reptile/reptile.py:109-120 | A successful `prompt` passed every check and built every form. Its answers are those of running the built forms. |
| Reptile.ReadyFormsDistinct | reptile/reptile.py:89-95 | Forms built from a batch that passed the checks have pairwise distinct names. |
| Reptile.PromptAnswers | reptile/reptile.py:118-120 | On success the keys are the names of the asked questions, and each asked question's entry is its finished answer. |

## Left out

- prompt_toolkit is not modelled: its Application, Window and layout construction, `ptk.prompt`, and the event loop. A form's terminal is a `Session`:
  - The List, Checkbox and Confirm forms read its key presses.
  - The Input form reads its texts submitted with enter.
  - Forms are given sessions in order; a form past the end gets an empty one.
- Line editing inside the Input prompt is not modelled. Only the texts the user submits are.
- Styles, Pygments tokens and `DEFAULT_STYLE`'s colours are left out. A style is an opaque value, and only the question rows' pointer and selector marks and the error message are kept.
- The bodies of `Validate`, `Transform` and `When` are left out. They are arbitrary callables, so they become uninterpreted functions over `Value`.
- Exceptions raised by `Validate`, `Transform` or `When` are not modelled; the model's functions are total and cannot raise. In the source, `Transform` and `When` run outside the event loop (reptile/forms/abstract.py:98, 103), so their exceptions propagate out of `prompt`. `Validate` runs inside a key or accept handler (reptile/forms/checkbox.py:31, reptile/forms/input.py:32). There prompt_toolkit's event-loop exception handler prints the traceback, waits for enter, and keeps the form running.
- Blocking forever is replaced by `NoCommit`. A session that ends before the form commits yields `NoCommit`, where the source keeps waiting for keys.
- A List or Checkbox without usable choices yields `NoChoices`, where the source raises TypeError or IndexError:
  - A List with missing choices gives `NoChoices`. The source fails at once, because building the rows enumerates None (reptile/forms/multi.py:102).
  - A List with empty choices gives `NoChoices` whatever the keys. In the source a down raises IndexError inside its handler (reptile/forms/multi.py:74). prompt_toolkit prints that error and keeps the form running. Enter exits the form, and reading the answer then fails with IndexError out of `prompt` (reptile/forms/list.py:46). Without an enter the source keeps waiting.
  - A Checkbox with missing choices gives `NoChoices`. The source fails at once, as for a List.
- Forms.EmptyCheckboxAnswer: a down or space on a Checkbox with an empty choice list is modelled as ending the form with `NoChoices`. In the source the handler's IndexError (reptile/forms/multi.py:74, reptile/forms/checkbox.py:45) is printed by prompt_toolkit, and the widget keeps running. A later enter can then still commit `[]`. The model does not capture that continuation, or the enter that dismisses the printed error.
- Confirm.Commit: prompt_toolkit's own default bindings are not modelled. For example, enter accepts the empty buffer and would answer the empty string. Every key other than y/Y/n/N is swallowed, as the catch-all handler intends.
- Abstract.Init: requires a name, because forms are only built after the name check. A form constructed directly without `Name` would store its answer under `None`.
- Only string names are modelled, and `str.lower` is ASCII lower-casing without Unicode case folding.
- A `Type` is either absent or a string. A `Type` that is present but not a string, such as None, is not modelled. The source rejects it with `InvalidFormType` (reptile/reptile.py:103).
- `Message` is always a string. A missing Message, which the source reads as None, is not modelled.
- Keyword arguments other than the ten recognised ones are not modelled. The source ignores them: every constructor takes `**kwargs` and reads only the keys it knows (reptile/forms/abstract.py:45-46).
- Reptile.WithStyle: the default style is written into a copy of the question. The source also writes it into the caller's dict.
- The Checkbox and List widget state is created when the form is asked rather than when it is built. Construction does nothing observable besides setting the fields `Init` produces.
- Forms.AskRaw: a Checkbox over an empty choice list is answered by the key-sequence function `EmptyCheckboxAnswer`, without widget state. `MultiForm` needs at least one row to keep its cursor in range.
- The question window, the instructions text and the error window's height trick are rendering details and are left out. The error shown is kept as an `Option<string>` field.
