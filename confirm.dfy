/** The yes/no Confirm form (reptile/forms/confirm.py): y or Y commits True,
    n or N commits False, and every other key is swallowed. No validator is
    passed to its prompt. */
module Confirm {
  import opened PyValue
  import opened Terminal
  import Input

  /** The result a key commits: `Some(true)` for y/Y, `Some(false)` for
      n/N, and `None` for every key the catch-all handler swallows. */
  function KeyResult(k: Key): (r: Option<bool>)
    ensures r == Some(true) <==> k == Char('y') || k == Char('Y')
    ensures r == Some(false) <==> k == Char('n') || k == Char('N')
  {
    match k
    case Char(c) =>
      if c == 'y' || c == 'Y' then Some(true)
      else if c == 'n' || c == 'N' then Some(false)
      else None
    case _ => None
  }

  /** The boolean a Confirm form commits for a key sequence; `None` when no
      y/Y/n/N key arrives. */
  function Commit(keys: seq<Key>): (r: Option<bool>)
    ensures r.None? <==> forall k :: k in keys ==> KeyResult(k).None?
    ensures r.Some? ==> exists k :: k in keys && KeyResult(k) == r
  {
    if keys == [] then None
    else if KeyResult(keys[0]).Some? then KeyResult(keys[0])
    else
      assert forall k :: k in keys <==> k == keys[0] || k in keys[1..];
      Commit(keys[1..])
  }

  /** The committed answer is decided by the first y/Y/n/N key; every key
      before it was swallowed, and with none the form does not commit. */
  lemma {:induction false} CommitIsFirstAnswerKey(keys: seq<Key>)
    ensures Commit(keys).None? <==> forall k :: 0 <= k < |keys| ==> KeyResult(keys[k]).None?
    ensures Commit(keys).Some? ==>
      exists k :: 0 <= k < |keys| && KeyResult(keys[k]) == Commit(keys)
                && forall j :: 0 <= j < k ==> KeyResult(keys[j]).None?
  {
    if keys != [] && KeyResult(keys[0]).None? {
      CommitIsFirstAnswerKey(keys[1..]);
      assert forall j :: 1 <= j < |keys| ==> keys[j] == keys[1..][j - 1];
      if Commit(keys).Some? {
        var k :| 0 <= k < |keys[1..]| && KeyResult(keys[1..][k]) == Commit(keys[1..])
                 && forall j :: 0 <= j < k ==> KeyResult(keys[1..][j]).None?;
        assert KeyResult(keys[k + 1]) == Commit(keys);
      }
    }
  }

  /** `ConfirmForm._format_message`: the Input prompt tokens followed by
      exactly one instruction token. */
  function FormatMessage(message: string): (r: seq<Input.Token>)
    ensures |r| == |Input.FormatMessage(message)| + 1
    ensures r[..|r| - 1] == Input.FormatMessage(message)
    ensures r[|r| - 1] == Input.Token(Input.Instruction, "(y/n) ")
  {
    Input.FormatMessage(message) + [Input.Token(Input.Instruction, "(y/n) ")]
  }

  class ConfirmForm {
    /** The prompt's buffer text. */
    var text: string
    /** The value the prompt exited with, once it has. */
    var result: Option<bool>

    constructor ()
      ensures text == "" && result == None
    {
      text := "";
      result := None;
    }

    /** The y/Y handler. */
    method Yes()
      modifies this
      ensures text == "y" && result == Some(true)
    {
      text := "y";
      result := Some(true);
    }

    /** The n/N handler. */
    method No()
      modifies this
      ensures text == "n" && result == Some(false)
    {
      text := "n";
      result := Some(false);
    }

    /** Dispatches one key: y/Y and n/N commit and set the buffer to "y" or
        "n"; any other key changes nothing. */
    method Press(k: Key)
      modifies this
      ensures KeyResult(k) == Some(true) ==> text == "y" && result == Some(true)
      ensures KeyResult(k) == Some(false) ==> text == "n" && result == Some(false)
      ensures KeyResult(k).None? ==> text == old(text) && result == old(result)
    {
      if k == Char('y') || k == Char('Y') {
        Yes();
      } else if k == Char('n') || k == Char('N') {
        No();
      }
    }

    /** The prompt fed with `keys` until a handler exits it. */
    method Run(keys: seq<Key>) returns (answer: Option<bool>)
      requires result.None?
      modifies this
      ensures answer == Commit(keys) && result == answer
      ensures answer == Some(true) ==> text == "y"
      ensures answer == Some(false) ==> text == "n"
      ensures answer.None? ==> text == old(text)
    {
      var i := 0;
      while i < |keys|
        invariant 0 <= i <= |keys|
        invariant result.None? && text == old(text)
        invariant Commit(keys) == Commit(keys[i..])
      {
        assert keys[i..][1..] == keys[i + 1..];
        Press(keys[i]);
        if result.Some? {
          return result;
        }
        i := i + 1;
      }
      return None;
    }
  }
}
