/** Small values shared by every module. */
module Prelude {
  datatype Option<+T> = None | Some(value: T)

  function Sum(xs: seq<int>): int {
    if xs == [] then 0 else Sum(xs[..|xs| - 1]) + xs[|xs| - 1]
  }

  /** Python's text[i:i + n]: a slice may run off the end. */
  function Slice(text: string, i: nat, n: nat): string {
    if i >= |text| then "" else if i + n > |text| then text[i..] else text[i..i + n]
  }

  /** Python's `part in text` on strings. */
  predicate Contains(text: string, part: string) {
    exists i: nat :: i <= |text| && Slice(text, i, |part|) == part
  }

  /** The characters str.strip and \s treat as white space. */
  predicate IsSpace(c: char) {
    || '\U{0009}' <= c <= '\U{000D}' || '\U{001C}' <= c <= '\U{0020}' || c == '\U{0085}' || c == '\U{00A0}'
    || c == '\U{1680}' || '\U{2000}' <= c <= '\U{200A}' || c == '\U{2028}' || c == '\U{2029}'
    || c == '\U{202F}' || c == '\U{205F}' || c == '\U{3000}'
  }

  /** text.strip() is empty. */
  predicate Blank(text: string) {
    forall c :: c in text ==> IsSpace(c)
  }

  /** text.strip() */
  function Strip(text: string): string {
    if text == "" then ""
    else if IsSpace(text[0]) then Strip(text[1..])
    else if IsSpace(text[|text| - 1]) then Strip(text[..|text| - 1])
    else text
  }
}
