/** Python values as they reach a questionnaire: answers, defaults, validator
    results and styles, with Python's truth test, plus the two wrappers the
    model uses for optional fields and for raised exceptions. */
module PyValue {

  datatype Option<+T> = None | Some(value: T)

  /** A call that either returns a value or raises an error. */
  datatype Result<+T, +E> = Ok(value: T) | Err(error: E)

  /** The Python values the model distinguishes. `PyObject` stands for any
      other object (a style, a user-defined instance); such objects are
      truthy, as Python objects are unless they define `__bool__`/`__len__`. */
  datatype Value =
    | PyNone
    | PyBool(b: bool)
    | PyInt(i: int)
    | PyStr(s: string)
    | PyList(items: seq<Value>)
    | PyObject(id: nat)

  /** Python's `not v`. */
  predicate IsFalsy(v: Value)
  {
    match v
    case PyNone => true
    case PyBool(b) => !b
    case PyInt(i) => i == 0
    case PyStr(s) => s == ""
    case PyList(items) => items == []
    case PyObject(_) => false
  }

  /** `s` is present and truthy: `if k["Values"]` on an optional list. */
  predicate IsTruthyList(s: Option<seq<Value>>)
  {
    s.Some? && s.value != []
  }

  /** ASCII lower-casing of one character, standing for `str.lower`. */
  function LowerChar(c: char): char
  {
    if 'A' <= c <= 'Z' then (c as int + 32) as char else c
  }

  /** `s.lower()`, restricted to ASCII case mapping. */
  function Lower(s: string): (r: string)
    ensures |r| == |s|
    ensures forall i :: 0 <= i < |s| ==> r[i] == LowerChar(s[i])
  {
    seq(|s|, i requires 0 <= i < |s| => LowerChar(s[i]))
  }
}
