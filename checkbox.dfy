/** The multi-select Checkbox form (reptile/forms/checkbox.py): a set of
    selected row indices toggled by space, filled by `a`, complemented by
    `i`, and committed by enter only when the validator accepts it. */
module Checkbox {
  import opened PyValue
  import opened Terminal
  import opened Multi

  /** The message shown when the validator rejects without a message. */
  const GenericMessage: string := "Could not validate the input succesfully."

  /** The row indices `{0, ..., n-1}`. */
  function Indices(n: nat): (r: set<nat>)
    ensures forall i: nat :: i in r <==> i < n
  {
    if n == 0 then {} else Indices(n - 1) + {n - 1}
  }

  /** The selector mark of row `i` for a selection. */
  function SelectorMark(selected: set<nat>, i: nat): Option<bool>
  {
    Some(i in selected)
  }

  /** The space key: flips membership of row `i` and of no other row. */
  function Toggle(selected: set<nat>, i: nat): (r: set<nat>)
    ensures i in r <==> i !in selected
    ensures forall j :: j != i ==> (j in r <==> j in selected)
  {
    if i in selected then selected - {i} else selected + {i}
  }

  /** The `i` key: the complement within the rows. */
  function Inverted(selected: set<nat>, n: nat): (r: set<nat>)
    ensures forall j: nat :: j in r <==> j < n && j !in selected
  {
    Indices(n) - selected
  }

  /** Inverting twice gives back the original selection. */
  lemma InvertInvolution(selected: set<nat>, n: nat)
    requires selected <= Indices(n)
    ensures Inverted(Inverted(selected, n), n) == selected
  {
  }

  /** The selected rows below `n` in ascending order (`sorted(self._selected)`). */
  function SortedIndices(selected: set<nat>, n: nat): (r: seq<nat>)
    ensures forall k :: 0 <= k < |r| ==> r[k] < n && r[k] in selected
    ensures forall i :: i in selected && i < n ==> i in r
    ensures forall k, l :: 0 <= k < l < |r| ==> r[k] < r[l]
  {
    if n == 0 then [] else SortedIndices(selected, n - 1) + (if n - 1 in selected then [n - 1] else [])
  }

  /** The row indices `0, ..., n-1` in order. */
  function Upto(n: nat): (r: seq<nat>)
    ensures |r| == n && forall i :: 0 <= i < n ==> r[i] == i
  {
    if n == 0 then [] else Upto(n - 1) + [n - 1]
  }

  /** When every row is selected, the ascending order is just `0, ..., n-1`. */
  lemma {:induction false} SortedIndicesOfAll(n: nat)
    ensures SortedIndices(Indices(n), n) == Upto(n)
  {
    if n > 0 {
      SortedIndicesOfAll(n - 1);
      SortedIndicesOnlyBelow(Indices(n), Indices(n - 1), n - 1);
      assert n - 1 in Indices(n);
    }
  }

  /** With nothing selected there is nothing to enumerate. */
  lemma {:induction false} SortedIndicesOfNone(n: nat)
    ensures SortedIndices({}, n) == []
  {
    if n > 0 {
      SortedIndicesOfNone(n - 1);
    }
  }

  /** The ascending order below `n` depends only on the selection below `n`. */
  lemma {:induction false} SortedIndicesOnlyBelow(a: set<nat>, b: set<nat>, n: nat)
    requires forall i :: i < n ==> (i in a <==> i in b)
    ensures SortedIndices(a, n) == SortedIndices(b, n)
  {
    if n > 0 {
      SortedIndicesOnlyBelow(a, b, n - 1);
    }
  }

  /** `[self._values[s] for s in sorted(self._selected)]`. */
  function Selection(values: seq<Value>, selected: set<nat>): (r: seq<Value>)
    ensures forall x :: x in r ==> x in values
  {
    var idx := SortedIndices(selected, |values|);
    seq(|idx|, k requires 0 <= k < |idx| => values[idx[k]])
  }

  /** Selecting every row commits the whole `values` list in its order. */
  lemma SelectAllGivesValues(values: seq<Value>)
    ensures Selection(values, Indices(|values|)) == values
  {
    SortedIndicesOfAll(|values|);
  }

  /** With nothing selected the selection is the empty list. */
  lemma EmptySelection(values: seq<Value>)
    ensures Selection(values, {}) == []
  {
    SortedIndicesOfNone(|values|);
  }

  /** The validator's verdict on a selection; `True` when none is given. */
  function ValidationResult(validate: Option<Value -> Value>, selection: seq<Value>): (r: Value)
    ensures validate.None? ==> r == PyBool(true)
    ensures validate.Some? ==> r == validate.value(PyList(selection))
  {
    if validate.Some? then validate.value(PyList(selection)) else PyBool(true)
  }

  /** The enter key's decision: commit (`None`) exactly when the result is
      the value `True`; otherwise the error message, which is the result
      itself when it is a string (even the empty one) and the generic
      message for every other result, truthy or not. */
  function Verdict(validation: Value): (r: Option<string>)
    ensures r.None? <==> validation == PyBool(true)
    ensures r.Some? && validation.PyStr? ==> r.value == validation.s
    ensures r.Some? && !validation.PyStr? ==> r.value == GenericMessage
  {
    if validation == PyBool(true) then None
    else if validation.PyStr? then Some(validation.s)
    else Some(GenericMessage)
  }

  /** The answer a Checkbox form commits for a key sequence, starting from
      the given cursor and selection; `None` when no enter is accepted. */
  function Commit(values: seq<Value>, validate: Option<Value -> Value>,
                  cursor: nat, selected: set<nat>, keys: seq<Key>): (r: Option<seq<Value>>)
    ensures r.Some? ==> Verdict(ValidationResult(validate, r.value)).None?
    ensures r.Some? ==> forall x :: x in r.value ==> x in values
    decreases |keys|
  {
    if keys == [] then None
    else
      var n := |values|;
      match keys[0]
      case Up => Commit(values, validate, CursorUp(cursor), selected, keys[1..])
      case Down => Commit(values, validate, CursorDown(cursor, n), selected, keys[1..])
      case Enter =>
        var s := Selection(values, selected);
        if Verdict(ValidationResult(validate, s)).None? then Some(s)
        else Commit(values, validate, cursor, selected, keys[1..])
      case Char(c) =>
        var next :=
          if c == ' ' then Toggle(selected, cursor)
          else if c == 'a' then Indices(n)
          else if c == 'i' then Inverted(selected, n)
          else selected;
        Commit(values, validate, cursor, next, keys[1..])
  }

  /** `a` then enter commits every value in order, whatever was selected
      before, whenever the validator accepts the full list. */
  lemma SelectAllThenEnter(values: seq<Value>, validate: Option<Value -> Value>,
                           cursor: nat, selected: set<nat>, keys: seq<Key>)
    requires Verdict(ValidationResult(validate, values)).None?
    ensures Commit(values, validate, cursor, selected, [Char('a'), Enter] + keys) == Some(values)
  {
    assert ([Char('a'), Enter] + keys)[1..] == [Enter] + keys;
    SelectAllGivesValues(values);
  }

  /** A refused enter changes nothing: the session goes on from the same
      cursor and the same selection. */
  lemma RefusedEnterKeepsSelection(values: seq<Value>, validate: Option<Value -> Value>,
                                   cursor: nat, selected: set<nat>, keys: seq<Key>)
    requires Verdict(ValidationResult(validate, Selection(values, selected))).Some?
    ensures Commit(values, validate, cursor, selected, [Enter] + keys)
            == Commit(values, validate, cursor, selected, keys)
  {
    assert ([Enter] + keys)[1..] == keys;
  }

  /** Pressing `i` twice leaves the session where it was. */
  lemma InvertTwiceIsNoOp(values: seq<Value>, validate: Option<Value -> Value>,
                          cursor: nat, selected: set<nat>, keys: seq<Key>)
    requires selected <= Indices(|values|)
    ensures Commit(values, validate, cursor, selected, [Char('i'), Char('i')] + keys)
            == Commit(values, validate, cursor, selected, keys)
  {
    assert ([Char('i'), Char('i')] + keys)[1..] == [Char('i')] + keys;
    assert ([Char('i')] + keys)[1..] == keys;
    InvertInvolution(selected, |values|);
  }

  class CheckboxForm {
    const values: seq<Value>
    const validate: Option<Value -> Value>
    const multi: MultiForm
    var selected: set<nat>
    var selection: seq<Value>
    var error: Option<string>
    var exited: bool

    /** The cursor invariant, the selection within the rows, and each row's
        selector showing "●" exactly when the row is selected. */
    ghost predicate Valid()
      reads this, multi, multi.windows
    {
      && multi.Valid()
      && |values| == |multi.choices|
      && selected <= Indices(|values|)
      && (forall i :: 0 <= i < multi.windows.Length ==> multi.windows[i].selector == SelectorMark(selected, i))
    }

    /** `CheckboxForm.__init__` with the rows drawn when the form is asked:
        cursor 0, nothing selected, no error shown. */
    constructor (choices: seq<Value>, values: seq<Value>, validate: Option<Value -> Value>)
      requires |choices| >= 1 && |values| == |choices|
      ensures Valid() && fresh(multi) && fresh(multi.windows)
      ensures this.values == values && this.validate == validate && multi.choices == choices
      ensures multi.cursor == 0 && selected == {} && error == None && !exited
    {
      var m := new MultiForm(choices, true);
      this.values := values;
      this.validate := validate;
      multi := m;
      selected := {};
      selection := [];
      error := None;
      exited := false;
    }

    /** `_select`: row `i` shows "●". */
    method Select(i: nat)
      requires i < multi.windows.Length
      modifies multi.windows
      ensures multi.windows[i] == old(multi.windows[i]).(selector := Some(true))
      ensures forall k :: 0 <= k < multi.windows.Length && k != i ==> multi.windows[k] == old(multi.windows[k])
    {
      multi.windows[i] := multi.windows[i].(selector := Some(true));
    }

    /** `_deselect`: row `i` shows "○". */
    method Deselect(i: nat)
      requires i < multi.windows.Length
      modifies multi.windows
      ensures multi.windows[i] == old(multi.windows[i]).(selector := Some(false))
      ensures forall k :: 0 <= k < multi.windows.Length && k != i ==> multi.windows[k] == old(multi.windows[k])
    {
      multi.windows[i] := multi.windows[i].(selector := Some(false));
    }

    /** `_display_error`: the error region shows `message`. */
    method DisplayError(message: string)
      modifies this`error
      ensures error == Some(message)
    {
      error := Some(message);
    }

    /** The space key (`click`): flips the cursor row and its mark. */
    method Click()
      requires Valid()
      modifies this`selected, multi.windows
      ensures Valid()
      ensures selected == Toggle(old(selected), multi.cursor)
      ensures forall i :: 0 <= i < multi.windows.Length ==>
        multi.windows[i] == old(multi.windows[i]).(selector := SelectorMark(selected, i))
    {
      if multi.cursor !in selected {
        selected := selected + {multi.cursor};
        Select(multi.cursor);
      } else {
        selected := selected - {multi.cursor};
        Deselect(multi.cursor);
      }
    }

    /** The `a` key (`select_all`): every row selected and marked. */
    method SelectAll()
      requires Valid()
      modifies this`selected, multi.windows
      ensures Valid()
      ensures selected == Indices(|values|)
      ensures forall i :: 0 <= i < multi.windows.Length ==>
        multi.windows[i] == old(multi.windows[i]).(selector := Some(true))
    {
      for idx := 0 to multi.windows.Length
        invariant selected == old(selected) + Indices(idx)
        invariant forall k :: 0 <= k < idx ==>
          multi.windows[k] == old(multi.windows[k]).(selector := Some(true))
        invariant forall k :: idx <= k < multi.windows.Length ==> multi.windows[k] == old(multi.windows[k])
      {
        selected := selected + {idx};
        Select(idx);
      }
    }

    /** The `i` key (`invert_all`): every row flipped, so the selection
        becomes its complement within the rows. */
    method InvertAll()
      requires Valid()
      modifies this`selected, multi.windows
      ensures Valid()
      ensures selected == Inverted(old(selected), |values|)
      ensures forall i :: 0 <= i < multi.windows.Length ==>
        multi.windows[i] == old(multi.windows[i]).(selector := SelectorMark(selected, i))
    {
      for idx := 0 to multi.windows.Length
        invariant selected == (old(selected) - Indices(idx)) + (Indices(idx) - old(selected))
        invariant forall k :: 0 <= k < idx ==>
          multi.windows[k] == old(multi.windows[k]).(selector := SelectorMark(selected, k))
        invariant forall k :: idx <= k < multi.windows.Length ==> multi.windows[k] == old(multi.windows[k])
      {
        if idx !in selected {
          selected := selected + {idx};
          Select(idx);
        } else {
          selected := selected - {idx};
          Deselect(idx);
        }
      }
    }

    /** The enter key: computes the selection, then exits when the verdict
        accepts it and otherwise shows the error; the selected set is never
        changed. */
    method Enter()
      requires Valid()
      modifies this`selection, this`error, this`exited
      ensures Valid()
      ensures selection == Selection(values, selected)
      ensures exited == (old(exited) || Verdict(ValidationResult(validate, selection)).None?)
      ensures error == (if Verdict(ValidationResult(validate, selection)).None? then old(error)
                        else Verdict(ValidationResult(validate, selection)))
    {
      selection := Selection(values, selected);
      var validation := if validate.Some? then validate.value(PyList(selection)) else PyBool(true);
      if validation == PyBool(true) {
        exited := true;
      } else {
        var message := GenericMessage;
        if validation.PyStr? {
          message := validation.s;
        }
        DisplayError(message);
      }
    }

    /** The widget's event loop fed with `keys`: dispatches each key to its
        handler until enter is accepted, and returns the committed
        selection. */
    method Run(keys: seq<Key>) returns (answer: Option<seq<Value>>)
      requires Valid() && !exited
      modifies this, multi, multi.windows
      ensures Valid()
      ensures answer == Commit(values, validate, old(multi.cursor), old(selected), keys)
    {
      var i := 0;
      while i < |keys|
        invariant 0 <= i <= |keys|
        invariant Valid() && !exited
        invariant Commit(values, validate, old(multi.cursor), old(selected), keys)
               == Commit(values, validate, multi.cursor, selected, keys[i..])
      {
        assert keys[i..][1..] == keys[i + 1..];
        match keys[i] {
          case Up => multi.MoveUp();
          case Down => multi.MoveDown();
          case Enter =>
            Enter();
            if exited {
              return Some(selection);
            }
          case Char(c) =>
            if c == ' ' {
              Click();
            } else if c == 'a' {
              SelectAll();
            } else if c == 'i' {
              InvertAll();
            }
        }
        i := i + 1;
      }
      return None;
    }
  }
}
