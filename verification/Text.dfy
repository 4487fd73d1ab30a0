/** Python's whitespace and the identity text that product fields are compared by. */
module Text {

  /** The characters for which str.isspace() holds. */
  predicate IsSpace(c: char) {
    var u := c as int;
    9 <= u <= 13 || 28 <= u <= 32 || u == 0x85 || u == 0xA0 || u == 0x1680 || 0x2000 <= u <= 0x200A
    || u == 0x2028 || u == 0x2029 || u == 0x202F || u == 0x205F || u == 0x3000
  }

  /** Case folding, on the ASCII letters only. */
  function Fold(c: char): char {
    if 'A' <= c <= 'Z' then c - 'A' + 'a' else c
  }

  /** Casefolded words joined by single spaces. `started`: a word was seen; `gap`: a space followed it. */
  function Words(s: string, started: bool, gap: bool): string {
    if s == [] then []
    else if IsSpace(s[0]) then Words(s[1..], started, started)
    else (if gap then [' ', Fold(s[0])] else [Fold(s[0])]) + Words(s[1..], true, false)
  }

  function IdentityText(s: string): string {
    Words(s, false, false)
  }

  function FoldAll(s: string): string {
    if s == [] then [] else [Fold(s[0])] + FoldAll(s[1..])
  }
}
