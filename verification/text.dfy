/**
 * String helpers shared by the icon resolver and the navigation shell:
 * JavaScript's `toUpperCase` on one character and the
 * `s.charAt(0).toUpperCase() + s.slice(1)` idiom.
 */
module Text {

  /** `toUpperCase` on a single character, for the ASCII range. */
  function Upper(c: char): (u: char)
    ensures 'a' <= c <= 'z' ==> 'A' <= u <= 'Z' && u as int == c as int - 32
    ensures !('a' <= c <= 'z') ==> u == c
  {
    if 'a' <= c <= 'z' then (c as int - 32) as char else c
  }

  /** Upper-casing twice is upper-casing once. */
  lemma UpperIdempotent(c: char)
    ensures Upper(Upper(c)) == Upper(c)
  {
  }

  /** Upper-casing never produces the separator `-`, and leaves it alone. */
  lemma UpperKeepsDash(c: char)
    ensures Upper(c) == '-' <==> c == '-'
  {
  }

  /**
   * `s.charAt(0).toUpperCase() + s.slice(1)`: only the first character is
   * upper-cased; the empty string stays empty.
   */
  function Capitalize(s: string): (r: string)
    ensures |r| == |s|
    ensures |s| > 0 ==> r[0] == Upper(s[0]) && r[1..] == s[1..]
  {
    if |s| == 0 then "" else [Upper(s[0])] + s[1..]
  }

  /** Capitalizing an already capitalized string changes nothing. */
  lemma CapitalizeIdempotent(s: string)
    ensures Capitalize(Capitalize(s)) == Capitalize(s)
  {
    if |s| > 0 {
      UpperIdempotent(s[0]);
    }
  }
}
