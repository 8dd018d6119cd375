/**
 * `to_snake_case`, the header normaliser local to `bulk_create_meetings`
 * (zoom_api_helper/v2.py): replace spaces, then hyphens, by underscores and
 * lower-case the result.  Lower-casing is modelled on ASCII letters only.
 */
module SnakeCase {

  /** `str.replace(target, replacement)` for one-character arguments. */
  function Replace(s: string, target: char, replacement: char): (r: string)
    ensures |r| == |s|
    ensures forall i :: 0 <= i < |s| ==> r[i] == (if s[i] == target then replacement else s[i])
  {
    if s == [] then []
    else [if s[0] == target then replacement else s[0]] + Replace(s[1..], target, replacement)
  }

  function LowerChar(c: char): char {
    if 'A' <= c <= 'Z' then (c as int + ('a' as int - 'A' as int)) as char else c
  }

  /** `str.lower()` on ASCII text. */
  function Lower(s: string): (r: string)
    ensures |r| == |s|
    ensures forall i :: 0 <= i < |s| ==> r[i] == LowerChar(s[i])
  {
    if s == [] then [] else [LowerChar(s[0])] + Lower(s[1..])
  }

  /** What `to_snake_case` does to one character, stated on its own. */
  function SnakeChar(c: char): char {
    if c == ' ' || c == '-' then '_' else LowerChar(c)
  }

  /** A string `to_snake_case` leaves as it is. */
  predicate IsSnake(s: string) {
    forall i :: 0 <= i < |s| ==> s[i] != ' ' && s[i] != '-' && !('A' <= s[i] <= 'Z')
  }

  function ToSnakeCase(s: string): (r: string)
    ensures |r| == |s|
    ensures forall i :: 0 <= i < |s| ==> r[i] == SnakeChar(s[i])
    ensures IsSnake(r)
  {
    Lower(Replace(Replace(s, ' ', '_'), '-', '_'))
  }

  /** Normalising twice is normalising once. */
  lemma ToSnakeCaseIdempotent(s: string)
    ensures ToSnakeCase(ToSnakeCase(s)) == ToSnakeCase(s)
  {
    var r := ToSnakeCase(s);
    SnakeFixed(r);
  }

  /** Exactly the snake-case strings are left unchanged. */
  lemma SnakeFixed(s: string)
    ensures ToSnakeCase(s) == s <==> IsSnake(s)
  {
    if IsSnake(s) {
      forall i | 0 <= i < |s| ensures ToSnakeCase(s)[i] == s[i] {
      }
    }
  }
}
