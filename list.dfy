/** The single-select List form (reptile/forms/list.py): the cursor moves
    over the choices and enter commits the value at the cursor, with no
    validation at all. */
module List {
  import opened PyValue
  import opened Terminal
  import opened Multi

  /** The row a List form commits for a key sequence over `n` rows, starting
      at `cursor`; `None` when the keys contain no enter. */
  function Commit(n: nat, cursor: nat, keys: seq<Key>): (r: Option<nat>)
    requires cursor < n
    ensures r.Some? ==> r.value < n
    decreases |keys|
  {
    if keys == [] then None
    else
      match keys[0]
      case Up => Commit(n, CursorUp(cursor), keys[1..])
      case Down => Commit(n, CursorDown(cursor, n), keys[1..])
      case Enter => Some(cursor)
      case Char(_) => Commit(n, cursor, keys[1..])
  }

  /** Enter commits at once, whatever follows it. */
  lemma EnterCommitsCursor(n: nat, cursor: nat, keys: seq<Key>)
    requires cursor < n
    ensures Commit(n, cursor, [Enter] + keys) == Some(cursor)
  {
  }

  /** A List form commits exactly when an enter arrives: no other key
      commits and no enter is ever refused. */
  lemma {:induction false} CommitsIffEnter(n: nat, cursor: nat, keys: seq<Key>)
    requires cursor < n
    ensures Commit(n, cursor, keys).Some? <==> Enter in keys
    decreases |keys|
  {
    if keys != [] {
      assert keys == [keys[0]] + keys[1..];
      match keys[0]
      case Up => CommitsIffEnter(n, CursorUp(cursor), keys[1..]);
      case Down => CommitsIffEnter(n, CursorDown(cursor, n), keys[1..]);
      case Enter =>
      case Char(_) => CommitsIffEnter(n, cursor, keys[1..]);
    }
  }

  class ListForm {
    const values: seq<Value>
    const multi: MultiForm
    var exited: bool

    ghost predicate Valid()
      reads this, multi, multi.windows
    {
      multi.Valid() && |values| == |multi.choices|
    }

    /** `ListForm.__init__` with the rows drawn when the form is asked. */
    constructor (choices: seq<Value>, values: seq<Value>)
      requires |choices| >= 1 && |values| == |choices|
      ensures Valid() && fresh(multi) && fresh(multi.windows)
      ensures this.values == values && multi.choices == choices && multi.cursor == 0 && !exited
    {
      var m := new MultiForm(choices, false);
      this.values := values;
      multi := m;
      exited := false;
    }

    /** The enter key: exits the widget unconditionally. */
    method Enter()
      modifies this`exited
      ensures exited
    {
      exited := true;
    }

    /** The widget's event loop fed with `keys`, then the stored answer
        `values[cursor]`. */
    method Run(keys: seq<Key>) returns (answer: Option<Value>)
      requires Valid() && !exited
      modifies this, multi, multi.windows
      ensures Valid()
      ensures answer == (var c := Commit(|values|, old(multi.cursor), keys);
                         if c.Some? then Some(values[c.value]) else None)
    {
      var i := 0;
      while i < |keys|
        invariant 0 <= i <= |keys|
        invariant Valid() && !exited
        invariant Commit(|values|, old(multi.cursor), keys) == Commit(|values|, multi.cursor, keys[i..])
      {
        assert keys[i..][1..] == keys[i + 1..];
        match keys[i] {
          case Up => multi.MoveUp();
          case Down => multi.MoveDown();
          case Enter =>
            Enter();
            return Some(values[multi.cursor]);
          case Char(_) =>
        }
        i := i + 1;
      }
      return None;
    }
  }
}
