/** The exclusion step as the source writes it. For each excluded character
    the generator builds `new RegExp(escapeRegExp(c), "g")` and replaces its
    matches with "". The escaping helper's pattern is a character class
    followed by two backslashes and a `]`, so it only matches four-character
    sequences and returns a single character unchanged: the character itself
    becomes the pattern. Regex syntax characters then misbehave: `.` matches
    every character but a line terminator, `^`, `$` and `|` match only the
    empty string, and `*`, `+`, `?`, `(`, `)`, `[` and `\` make the
    constructor throw. The rest of the model uses the intended exact-character
    removal, `CharsetBuilder.RemoveAll`. */
module RegexExclusion {
  import opened Wrappers
  import opened CharClasses
  import opened CharsetBuilder

  /** Characters that are not a valid pattern on their own. */
  const Throwing: string := "*+?()[\\"

  /** Characters whose pattern matches only the empty string. */
  const EmptyMatching: string := "^$|"

  /** Characters the as-written exclusion handles as intended. */
  predicate PlainChars(chars: string) {
    forall c :: c in chars ==> c !in Throwing && c !in EmptyMatching && c != '.'
  }

  /** What `s.replace(/./g, "")` leaves: the line terminators. */
  function KeepLineTerminators(s: string): (r: string)
    ensures forall c :: c in r <==> c in s && IsLineTerminator(c)
    ensures (forall c :: c in s ==> !IsLineTerminator(c)) ==> r == []
  {
    if s == [] then []
    else
      assert s == [s[0]] + s[1..];
      (if IsLineTerminator(s[0]) then [s[0]] else []) + KeepLineTerminators(s[1..])
  }

  /** One pass of the exclusion loop as written; `None` when the regular
      expression constructor throws. */
  function ReplaceAllAsWritten(s: string, ch: char): (r: Option<string>)
    ensures r.None? <==> ch in Throwing
    ensures ch in EmptyMatching ==> r == Some(s)
    ensures ch == '.' ==> r.Some? && forall c :: c in r.value ==> IsLineTerminator(c)
    ensures PlainChars([ch]) ==> r == Some(RemoveChar(s, ch))
    ensures r.Some? ==> forall c :: c in r.value ==> c in s
  {
    if ch in Throwing then None
    else if ch in EmptyMatching then Some(s)
    else if ch == '.' then Some(KeepLineTerminators(s))
    else Some(RemoveChar(s, ch))
  }

  /** The whole exclusion loop as written, one character after the other. It
      throws iff some excluded character is one that throws, and otherwise
      never adds a character. */
  function ExcludeAsWritten(s: string, chars: string): (r: Option<string>)
    ensures r.None? <==> exists c :: c in chars && c in Throwing
    ensures r.Some? ==> forall c :: c in r.value ==> c in s
    decreases |chars|
  {
    if chars == [] then Some(s)
    else
      var init, last := chars[..|chars| - 1], chars[|chars| - 1];
      assert chars == init + [last];
      match ExcludeAsWritten(s, init)
      case None => None
      case Some(t) => ReplaceAllAsWritten(t, last)
  }

  /** Without regex syntax characters the as-written loop is the exact
      removal. */
  lemma {:induction false} ExcludeAgreesOnPlainChars(s: string, chars: string)
    requires PlainChars(chars)
    ensures ExcludeAsWritten(s, chars) == Some(RemoveAll(s, chars))
    decreases |chars|
  {
    if chars != [] {
      var init, last := chars[..|chars| - 1], chars[|chars| - 1];
      assert last in chars;
      assert forall c :: c in init ==> c in chars;
      ExcludeAgreesOnPlainChars(s, init);
    }
  }

  /** The effective alphabet as written; `None` when `generatePassword`
      throws. */
  function EffectiveAlphabetAsWritten(o: PasswordOptions): (r: Option<string>)
    ensures r.None? <==> exists c :: c in o.excludeCharacters && c in Throwing
    ensures r.Some? ==> r.value != []
    ensures r.Some? ==> forall c :: c in r.value ==> c in Assembled(o) || c in DefaultAlphabet
  {
    match ExcludeAsWritten(Assembled(o), o.excludeCharacters)
    case None => None
    case Some(a) =>
      var f := if o.excludeAmbiguous then RemoveAll(a, Ambiguous) else a;
      Some(if f == [] then DefaultAlphabet else f)
  }

  /** On plain excluded characters the as-written alphabet is the model's. */
  lemma AsWrittenAgreesOnPlainChars(o: PasswordOptions)
    requires PlainChars(o.excludeCharacters)
    ensures EffectiveAlphabetAsWritten(o) == Some(EffectiveAlphabet(o))
  {
    ExcludeAgreesOnPlainChars(Assembled(o), o.excludeCharacters);
  }

  lemma {:induction false} RemoveAbsent(s: string, ch: char)
    requires ch !in s
    ensures RemoveChar(s, ch) == s
  {
    if s != [] {
      assert s[0] != ch;
      assert ch !in s[1..];
      RemoveAbsent(s[1..], ch);
      assert s == [s[0]] + s[1..];
    }
  }

  /** On letters only, excluding `.` as written leaves nothing, while the
      exact removal leaves everything. */
  lemma DotOnLetters(s: string)
    requires forall c :: c in s ==> IsLower(c)
    ensures ExcludeAsWritten(s, ".") == Some([])
    ensures RemoveAll(s, ".") == s
  {
    assert ['.'][..0] == [];
    RemoveAbsent(s, '.');
  }

  /** Excluding `.` from a lowercase-only alphabet empties it as written, so
      the default alphabet (upper case and digits too) is used; the exact
      removal leaves the lowercase letters alone. */
  lemma ExcludingDotWipesAlphabet()
    ensures var o := PasswordOptions(12, false, true, false, false, false, "", ".");
      EffectiveAlphabetAsWritten(o) == Some(DefaultAlphabet)
      && EffectiveAlphabet(o) == Lowercase
  {
    var o := PasswordOptions(12, false, true, false, false, false, "", ".");
    LowercaseOnly(o);
  }

  lemma LowercaseOnly(o: PasswordOptions)
    requires o == PasswordOptions(12, false, true, false, false, false, "", ".")
    ensures EffectiveAlphabetAsWritten(o) == Some(DefaultAlphabet)
    ensures EffectiveAlphabet(o) == Lowercase
  {
    AssembledLowercase(o);
    AllLower();
    DotOnLetters(Lowercase);
    AsWrittenEmpties(o);
    ExactKeeps(o);
  }

  lemma AsWrittenEmpties(o: PasswordOptions)
    requires ExcludeAsWritten(Assembled(o), o.excludeCharacters) == Some([])
    ensures EffectiveAlphabetAsWritten(o) == Some(DefaultAlphabet)
  {
    assert RemoveAll([], Ambiguous) == [];
  }

  lemma ExactKeeps(o: PasswordOptions)
    requires !o.excludeAmbiguous && RemoveAll(Assembled(o), o.excludeCharacters) == Lowercase
    ensures EffectiveAlphabet(o) == Lowercase
  {
  }

  lemma AllLower()
    ensures forall c :: c in Lowercase ==> IsLower(c)
  {
    forall c | c in Lowercase
      ensures IsLower(c)
    {
      LowercaseInRange(c);
    }
  }

  /** Excluding `*` makes `generatePassword` throw as written. */
  lemma ExcludingStarThrows()
    ensures var o := PasswordOptions(12, false, true, false, false, false, "", "*");
      EffectiveAlphabetAsWritten(o).None?
  {
    assert ['*'][..0] == [];
  }
}
