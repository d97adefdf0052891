/** Words that differ in the case of their letters only. */
module Letters {

  predicate SameLetter(a: char, b: char) {
    || a == b
    || ('A' <= a <= 'Z' && b as int == a as int + 32)
    || ('A' <= b <= 'Z' && a as int == b as int + 32)
  }

  predicate SameWord(s: string, t: string) {
    |s| == |t| && forall i :: 0 <= i < |s| ==> SameLetter(s[i], t[i])
  }

  /** `s` begins with the word, but for the case of its letters. */
  predicate BeginsWith(s: string, word: string) {
    |word| <= |s| && SameWord(s[..|word|], word)
  }
}
