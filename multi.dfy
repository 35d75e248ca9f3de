/** The cursor shared by List and Checkbox forms (reptile/forms/multi.py):
    the index of the active row and the pointer mark drawn in front of each
    choice row. */
module Multi {
  import opened PyValue

  /** One choice row of the widget: `pointer` is token 0 ("❯ " when true,
      blank otherwise), `selector` is token 1 in a Checkbox ("●" when true,
      "○" when false) and absent in a List, and `text` is the choice shown. */
  datatype Row = Row(pointer: bool, selector: Option<bool>, text: Value)

  /** Cursor after the up key: one row up, except that it stays at the
      first row. */
  function CursorUp(cursor: nat): (r: nat)
    ensures r <= cursor <= r + 1
    ensures r == cursor <==> cursor == 0
  {
    if cursor == 0 then 0 else cursor - 1
  }

  /** Cursor after the down key over `n` rows: one row down, except that
      it stays at the last row. */
  function CursorDown(cursor: nat, n: nat): (r: nat)
    ensures cursor <= r <= cursor + 1
    ensures r == cursor <==> cursor == n - 1
  {
    if cursor == n - 1 then cursor else cursor + 1
  }

  /** Neither move leaves the range of rows. */
  lemma CursorMovesStayInRange(cursor: nat, n: nat)
    requires cursor < n
    ensures CursorUp(cursor) < n && CursorDown(cursor, n) < n
  {
  }

  /** `_generate_choices_windows`: one row per choice, the pointer only on
      row 0, and in a Checkbox every selector unselected. */
  method GenerateChoicesWindows(choices: seq<Value>, checkbox: bool) returns (rows: array<Row>)
    ensures fresh(rows) && rows.Length == |choices|
    ensures forall i :: 0 <= i < rows.Length ==>
      rows[i] == Row(i == 0, if checkbox then Some(false) else None, choices[i])
  {
    rows := new Row[|choices|];
    for idx := 0 to |choices|
      invariant forall i :: 0 <= i < idx ==>
        rows[i] == Row(i == 0, if checkbox then Some(false) else None, choices[i])
    {
      rows[idx] := Row(idx == 0, if checkbox then Some(false) else None, choices[idx]);
    }
  }

  class MultiForm {
    const choices: seq<Value>
    const windows: array<Row>
    var cursor: nat

    /** The cursor is a row, and exactly the cursor row carries the pointer. */
    ghost predicate Valid()
      reads this, windows
    {
      && |choices| >= 1
      && windows.Length == |choices|
      && cursor < |choices|
      && (forall i :: 0 <= i < windows.Length ==> windows[i].pointer == (i == cursor))
      && (forall i :: 0 <= i < windows.Length ==> windows[i].text == choices[i])
    }

    /** `MultiForm.__init__` (cursor 0) together with the rows the form
        draws when it is asked. A form with no choices cannot move its
        cursor without indexing past the rows, so `choices` is non-empty. */
    constructor (choices: seq<Value>, checkbox: bool)
      requires |choices| >= 1
      ensures Valid() && this.choices == choices && cursor == 0 && fresh(windows)
      ensures forall i :: 0 <= i < windows.Length ==>
        windows[i].selector == (if checkbox then Some(false) else None)
    {
      var rows := GenerateChoicesWindows(choices, checkbox);
      this.choices := choices;
      cursor := 0;
      windows := rows;
    }

    /** `_move_cursor_up`: a no-op on row 0, otherwise one row up, moving
        the pointer mark with the cursor and touching nothing else. */
    method MoveUp()
      requires Valid()
      modifies this, windows
      ensures Valid()
      ensures cursor == CursorUp(old(cursor))
      ensures old(cursor) == 0 ==> cursor == 0
      ensures old(cursor) > 0 ==> cursor == old(cursor) - 1
      ensures forall i :: 0 <= i < windows.Length ==>
        windows[i] == old(windows[i]).(pointer := i == cursor)
    {
      if cursor == 0 {
        return;
      }
      windows[cursor] := windows[cursor].(pointer := false);
      windows[cursor - 1] := windows[cursor - 1].(pointer := true);
      cursor := cursor - 1;
    }

    /** `_move_cursor_down`: a no-op on the last row, otherwise one row down,
        moving the pointer mark with the cursor and touching nothing else. */
    method MoveDown()
      requires Valid()
      modifies this, windows
      ensures Valid()
      ensures cursor == CursorDown(old(cursor), |choices|)
      ensures old(cursor) == |choices| - 1 ==> cursor == old(cursor)
      ensures old(cursor) < |choices| - 1 ==> cursor == old(cursor) + 1
      ensures forall i :: 0 <= i < windows.Length ==>
        windows[i] == old(windows[i]).(pointer := i == cursor)
    {
      var maxIdx := |choices| - 1;
      if cursor == maxIdx {
        return;
      }
      windows[cursor] := windows[cursor].(pointer := false);
      windows[cursor + 1] := windows[cursor + 1].(pointer := true);
      cursor := cursor + 1;
    }
  }
}
