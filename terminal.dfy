/** The terminal as seen by a running form: the key events a widget receives,
    and the texts a line prompt submits. The display itself is not modelled. */
module Terminal {

  /** A key event as the terminal library names it. The space bar is
      `Char(' ')`. */
  datatype Key = Up | Down | Enter | Char(c: char)

  /** What the user does while one form runs: the key events delivered to a
      widget (List, Checkbox, Confirm) and the texts submitted with Enter to a
      free-text prompt (Input). A form consumes only the part it uses. */
  datatype Session = Session(keys: seq<Key>, lines: seq<string>)
}
