/** Texts in double quotes, with a backslash before each quote and backslash. */
module Quoting {

  function EscapeOne(c: char): string {
    if c == '"' || c == '\\' then ['\\', c] else [c]
  }

  function Escape(v: string): string {
    if v == "" then "" else EscapeOne(v[0]) + Escape(v[1..])
  }

  function Quote(v: string): string {
    "\"" + (Escape(v) + "\"")
  }
}
