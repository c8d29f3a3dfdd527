/** What the text passes share. */
module Text {
  import opened Wrappers

  function IndexOfChar(str: string, c: char, from: nat): (r: int)
    ensures r == -1 || (from <= r < |str| && str[r] == c)
    ensures forall i | from <= i < |str| && (r == -1 || i < r) :: str[i] != c
    decreases |str| - from
  {
    if from >= |str| then -1
    else if str[from] == c then from
    else IndexOfChar(str, c, from + 1)
  }

  /** JavaScript's `\s`. */
  predicate IsSpace(c: char) {
    || c == ' ' || c == '\n' || c == '\r' || c == '\t' || c == '\U{0b}' || c == '\U{0c}' || c == '\U{a0}' || c == '\U{1680}'
    || '\U{2000}' <= c <= '\U{200a}' || c == '\U{2028}' || c == '\U{2029}' || c == '\U{202f}' || c == '\U{205f}'
    || c == '\U{3000}' || c == '\U{feff}'
  }

  /** A key that is there and not empty. */
  predicate Truthy(key: Option<string>) {
    key.Some? && key.value != ""
  }

  lemma Assoc(x: string, y: string, z: string)
    ensures (x + y) + z == x + (y + z)
  {
  }
}
