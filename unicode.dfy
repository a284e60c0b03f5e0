/** The Unicode facilities both scripts borrow from Python and from the
    `emoji` package. Their tables are not modelled; each is a function the
    model receives, constrained only by the facts about it that the model
    relies on. */
module Unicode {
  import opened Text

  /** `emoji.get_emoji_regexp().match(s)`: the length of the emoji matched at
      the start of `s`, 0 when there is no match. */
  type EmojiMatcher = string -> nat

  /** Membership of Python's `\w` class. The underscore is a word character
      and whitespace is not. */
  type WordClass = f: char -> bool | f('_') && forall c :: SpaceIsNotWord(f, c)
    witness (c: char) => c == '_'

  predicate SpaceIsNotWord(f: char -> bool, c: char) {
    IsSpace(c) ==> !f(c)
  }

  predicate IsAscii(s: string) {
    forall i :: 0 <= i < |s| ==> s[i] < '\U{80}'
  }

  function AsciiLowerChar(c: char): char {
    if 'A' <= c <= 'Z' then (c as int + 32) as char else c
  }

  function AsciiLower(s: string): (r: string)
  {
    seq(|s|, i requires 0 <= i < |s| => AsciiLowerChar(s[i]))
  }

  /** `str.lower()`. On ASCII text it lowers exactly the letters A to Z. */
  type LowerCase = f: string -> string | forall s {:trigger IsAscii(s)} :: IsAscii(s) ==> f(s) == AsciiLower(s)
    witness (s: string) => AsciiLower(s)

  /** The foreign functions, bundled. `upper` is `str.upper()`. */
  datatype Foreign = Foreign(
    emojiLen: EmojiMatcher,
    isWord: WordClass,
    lower: LowerCase,
    upper: string -> string)
}
