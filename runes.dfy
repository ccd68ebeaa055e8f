/**
 * Code points and the two Unicode queries the matcher relies on.
 * Text is a sequence of code points (`seq<char>`), as after Go's `[]rune(str)`.
 * `ToLower` and `IsLetter` cover the Latin and basic Cyrillic alphabets only.
 */
module Runes {

  datatype Option<T> = None | Some(value: T)

  /** The result of an operation that, in the source, may index past the end of a slice and panic. */
  datatype Outcome<T> = Ok(value: T) | OutOfRange

  predicate IsUpper(c: char) {
    ('A' <= c <= 'Z') || ('А' <= c <= 'Я') || c == 'Ё'
  }

  predicate IsLower(c: char) {
    ('a' <= c <= 'z') || ('а' <= c <= 'я') || c == 'ё'
  }

  /** Letters of the modelled alphabet: Latin a-z, Cyrillic а-я and ё, in both cases. */
  predicate IsLetter(c: char) {
    IsUpper(c) || IsLower(c)
  }

  /** Lower-case mapping of the modelled alphabet; every other code point maps to itself. */
  function ToLower(c: char): (r: char)
    ensures IsUpper(c) ==> IsLower(r)
    ensures !IsUpper(c) ==> r == c
    ensures IsLetter(r) == IsLetter(c)
  {
    if 'A' <= c <= 'Z' then (c as int + 32) as char
    else if 'А' <= c <= 'Я' then (c as int + 32) as char
    else if c == 'Ё' then 'ё'
    else c
  }

  lemma {:induction false} ToLowerIdempotent(c: char)
    ensures ToLower(ToLower(c)) == ToLower(c)
  {
    if IsUpper(c) {
      assert IsLower(ToLower(c));
      assert !IsUpper(ToLower(c));
    }
  }
}
