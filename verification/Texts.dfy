/** String replacement as the standard library does it: leftmost occurrences, none overlapping. */
module Texts {

  predicate StartsWith(s: string, u: string) {
    |u| <= |s| && s[..|u|] == u
  }

  ghost predicate OccursAt(u: string, s: string, i: nat) {
    i <= |s| && StartsWith(s[i..], u)
  }

  ghost predicate Occurs(u: string, s: string) {
    exists i: nat :: OccursAt(u, s, i)
  }

  /** An empty pattern matches before every character and at the end. */
  function Between(s: string, substitute: string): string {
    substitute + if s == "" then "" else [s[0]] + Between(s[1..], substitute)
  }

  function ReplaceAll(s: string, pattern: string, substitute: string): string {
    if pattern == "" then Between(s, substitute)
    else if s == "" then ""
    else if StartsWith(s, pattern) then substitute + ReplaceAll(s[|pattern|..], pattern, substitute)
    else [s[0]] + ReplaceAll(s[1..], pattern, substitute)
  }
}
