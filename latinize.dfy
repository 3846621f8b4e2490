/**
 * `Latinize`: rewrites a string with small-capital look-alikes of the lower
 * case Latin letters, character by character, for display on the proxy.
 */
module Latinize {

  predicate IsLower(c: char)
  {
    'a' <= c <= 'z'
  }

  /** `latinizeRune`: the replacement of one character. */
  function LatinizeRune(c: char): (r: char)
    ensures !IsLower(c) ==> r == c
    ensures c == 'q' || c == 's' || c == 'x' || c == 'z' ==> r == c
    ensures IsLower(c) && c != 'q' && c != 's' && c != 'x' && c != 'z' ==> !IsLower(r)
  {
    match c
    case 'a' => '\U{1D00}'
    case 'b' => '\U{0299}'
    case 'c' => '\U{1D04}'
    case 'd' => '\U{1D05}'
    case 'e' => '\U{1D07}'
    case 'f' => '\U{0493}'
    case 'g' => '\U{0262}'
    case 'h' => '\U{029C}'
    case 'i' => '\U{026A}'
    case 'j' => '\U{1D0A}'
    case 'k' => '\U{1D0B}'
    case 'l' => '\U{029F}'
    case 'm' => '\U{1D0D}'
    case 'n' => '\U{0274}'
    case 'o' => '\U{1D0F}'
    case 'p' => '\U{1D18}'
    case 'q' => 'q'
    case 'r' => '\U{0280}'
    case 's' => 's'
    case 't' => '\U{1D1B}'
    case 'u' => '\U{1D1C}'
    case 'v' => '\U{1D20}'
    case 'w' => '\U{1D21}'
    case 'x' => 'x'
    case 'y' => '\U{028F}'
    case 'z' => 'z'
    case _ => c
  }

  /** Every replacement is a fixed point of the replacement. */
  lemma LatinizeRuneIdempotent(c: char)
    ensures LatinizeRune(LatinizeRune(c)) == LatinizeRune(c)
  {
  }

  /**
   * Distinct lower case letters stay distinct. (A letter and the character
   * it is replaced by do render alike.)
   */
  lemma LatinizeRuneOnLetters(c: char, d: char)
    requires IsLower(c) && IsLower(d) && c != d
    ensures LatinizeRune(c) != LatinizeRune(d)
  {
  }

  /**
   * `Latinize`: the string built by writing the replacement of each
   * character in order.
   */
  method Latinize(str: string) returns (s: string)
    ensures |s| == |str|
    ensures forall i | 0 <= i < |str| :: s[i] == LatinizeRune(str[i])
  {
    s := [];
    for i := 0 to |str|
      invariant |s| == i
      invariant forall j | 0 <= j < i :: s[j] == LatinizeRune(str[j])
    {
      s := s + [LatinizeRune(str[i])];
    }
  }

  /** Latinizing a latinized string changes nothing. */
  method LatinizeTwice(str: string) returns (once: string, twice: string)
    ensures once == twice
  {
    once := Latinize(str);
    twice := Latinize(once);
    forall i | 0 <= i < |str|
      ensures twice[i] == once[i]
    {
      LatinizeRuneIdempotent(str[i]);
    }
  }
}
