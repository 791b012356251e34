/** Searching and joining text. */
module Strings {

  /** `pattern` stands in `s` at position `i`. */
  predicate OccursAt(s: string, pattern: string, i: nat) {
    i + |pattern| <= |s| && s[i..i + |pattern|] == pattern
  }

  predicate Contains(s: string, pattern: string) {
    exists i: nat :: i <= |s| && OccursAt(s, pattern, i)
  }

  function Join(separator: string, parts: seq<string>): string {
    if parts == [] then "" else if |parts| == 1 then parts[0] else parts[0] + separator + Join(separator, parts[1..])
  }
}
