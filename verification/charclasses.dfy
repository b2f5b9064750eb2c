/** The fixed character tables of the password generator and the character
    predicates that the strength scorer's regular expressions test. */
module CharClasses {

  const Uppercase: string := "ABCDEFGHIJKLMNOPQRSTUVWXYZ"
  const Lowercase: string := "abcdefghijklmnopqrstuvwxyz"
  const Numbers: string := "0123456789"
  const Symbols: string := "!@#$%^&*()_+-=[]{}|;:,.<>?"
  const Ambiguous: string := "il1Lo0O"

  /** The alphabet used when options leave nothing to draw from. */
  const DefaultAlphabet: string := Lowercase + Uppercase + Numbers

  /** `[a-z]` */
  predicate IsLower(c: char) { 'a' <= c <= 'z' }

  /** `[A-Z]` */
  predicate IsUpper(c: char) { 'A' <= c <= 'Z' }

  /** `[0-9]` */
  predicate IsDigit(c: char) { '0' <= c <= '9' }

  /** `[^a-zA-Z0-9]` */
  predicate IsSymbol(c: char) { !IsLower(c) && !IsUpper(c) && !IsDigit(c) }

  /** The characters that `.` does not match in a regular expression. */
  predicate IsLineTerminator(c: char) {
    c == '\n' || c == '\r' || c == '\U{2028}' || c == '\U{2029}'
  }

  /** Each fixed table lies in the range its scorer regex tests, so the
      tables are pairwise disjoint. */
  lemma LowercaseInRange(c: char)
    ensures c in Lowercase ==> IsLower(c)
  {
  }

  lemma UppercaseInRange(c: char)
    ensures c in Uppercase ==> IsUpper(c)
  {
  }

  lemma NumbersInRange(c: char)
    ensures c in Numbers ==> IsDigit(c)
  {
  }

  lemma SymbolsInRange(c: char)
    ensures c in Symbols ==> IsSymbol(c)
  {
  }

  /** The ambiguous glyphs are all letters or digits, none a symbol. */
  lemma AmbiguousNotSymbol(c: char)
    ensures c in Ambiguous ==> c !in Symbols && c in DefaultAlphabet
  {
  }
}
