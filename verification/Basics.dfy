/** What several modules share: optional values, regrouping of sequences, and characters. */
module Basics {

  datatype Option<T> = None | Some(value: T)

  lemma Regroup<T>(a: seq<T>, b: seq<T>, c: seq<T>)
    ensures a + (b + c) == a + b + c
  {
  }

  /** Two sequences in a row can be told apart again. */
  lemma Halves<T>(a: seq<T>, b: seq<T>)
    ensures (a + b)[..|a|] == a && (a + b)[|a|..] == b
  {
  }

  lemma SliceSnoc<T>(s: seq<T>, i: nat, j: nat)
    requires i <= j < |s|
    ensures s[i..j] + [s[j]] == s[i..j + 1]
  {
  }

  // Bytes are characters below 256.
  const NUL := '\U{00}'
  const EOT := '\U{04}'
  const IAC := '\U{ff}'

  /** `isspace`. */
  predicate IsSpace(c: char) {
    c == ' ' || '\U{09}' <= c <= '\r'
  }

  /** The six characters of the C locale. */
  lemma SpaceIs(c: char)
    ensures IsSpace(c) <==> c in [' ', '\t', '\n', '\U{0b}', '\U{0c}', '\r']
  {
  }

  /** `operator[]` of a string, which may be read at index len, where it gives a NUL, but not beyond. */
  function At(s: string, k: nat): char
    requires k <= |s|
  {
    if k == |s| then NUL else s[k]
  }
}
