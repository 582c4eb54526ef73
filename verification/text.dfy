/** Upper-casing of repository names, restricted to ASCII letters. */
module Text {

  predicate IsLower(c: char) {
    'a' <= c <= 'z'
  }

  predicate IsUpper(c: char) {
    'A' <= c <= 'Z'
  }

  /** The upper-case form of one character; characters other than `a`..`z` are kept. */
  function UpperChar(c: char): char {
    if IsLower(c) then (c as int - 32) as char else c
  }

  /** `str::to_uppercase` on ASCII text: the result has the input's length, holds no
      lower-case letter, maps each letter `a`..`z` to its partner `A`..`Z` (32 code points
      lower) and keeps every other character in place. */
  function ToUpper(s: string): (u: string)
    ensures |u| == |s|
    ensures forall i :: 0 <= i < |u| ==> !IsLower(u[i])
    ensures forall i :: 0 <= i < |s| && IsLower(s[i]) ==>
      IsUpper(u[i]) && u[i] as int == s[i] as int - 32
    ensures forall i :: 0 <= i < |s| && !IsLower(s[i]) ==> u[i] == s[i]
  {
    if s == [] then [] else [UpperChar(s[0])] + ToUpper(s[1..])
  }

}
