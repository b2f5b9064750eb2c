/** Properties that connect the generator, the validator and the strength
    estimator on concrete options. */
module Scenarios {
  import opened CharClasses
  import opened CharsetBuilder
  import opened Generator
  import opened Strength

  /** Options for a 12-character password of upper case, lower case and
      digits, without symbols or exclusions. */
  predicate MixedNoSymbols(o: PasswordOptions) {
    o.length == 12 && o.includeUppercase && o.includeLowercase && o.includeNumbers
    && !o.includeSymbols && !o.excludeAmbiguous
    && o.customCharacters == [] && o.excludeCharacters == []
  }

  /** Such a password has 12 characters, at least one of each requested class
      and no symbol. */
  lemma MixedClassesScenario(o: PasswordOptions, pw: string)
    requires MixedNoSymbols(o) && Admissible(o, pw)
    ensures |pw| == 12
    ensures Intersects(pw, Lowercase) && Intersects(pw, Uppercase) && Intersects(pw, Numbers)
    ensures !Intersects(pw, Symbols)
  {
    MixedAlphabet(o);
    assert Covers(o);
    forall c | c in pw
      ensures c !in Symbols
    {
      NoSymbolInMixedPool(o, c);
    }
  }

  lemma MixedAlphabet(o: PasswordOptions)
    requires MixedNoSymbols(o)
    ensures EnabledClasses(o) == [Lowercase, Uppercase, Numbers]
    ensures EffectiveAlphabet(o) == ClassPool(o)
  {
    var cs := EnabledClasses(o);
    assert cs == [Lowercase, Uppercase, Numbers];
    assert Lowercase[0] in cs[0];
    assert ClassPool(o) != [];
    ValidWithoutExclusionsKeepsAlphabet(o);
  }

  lemma NoSymbolInMixedPool(o: PasswordOptions, c: char)
    requires EnabledClasses(o) == [Lowercase, Uppercase, Numbers]
    requires c in ClassPool(o)
    ensures c !in Symbols
  {
    var k :| 0 <= k < 3 && c in EnabledClasses(o)[k];
    LowercaseInRange(c);
    UppercaseInRange(c);
    NumbersInRange(c);
    SymbolsInRange(c);
  }

  /** Options for lower case only with the vowels excluded. */
  predicate LowerWithoutVowels(o: PasswordOptions) {
    o.length == 12 && !o.includeUppercase && o.includeLowercase && !o.includeNumbers
    && !o.includeSymbols && !o.excludeAmbiguous
    && o.customCharacters == [] && o.excludeCharacters == "aeiou"
  }

  /** Excluding the vowels keeps them out of every drawn character, but the
      one required lowercase character is picked before the exclusion and may
      be a vowel: a vowel occurs at most as often as in the required list,
      which has one character. */
  lemma VowelExclusionScenario(o: PasswordOptions, pw: string, required: string)
    requires LowerWithoutVowels(o)
    requires RequiredFor(o, required)
    requires Covers(o) ==>
      multiset(required) <= multiset(pw)
      && forall c :: c in multiset(pw) - multiset(required) ==> c in EffectiveAlphabet(o)
    ensures |required| == 1
    ensures forall v :: v in "aeiou" ==> multiset(pw)[v] <= multiset(required)[v]
  {
    VowelsExcluded(o);
    forall v | v in "aeiou"
      ensures multiset(pw)[v] <= multiset(required)[v]
    {
      ExcludedNotDrawn(o, pw, required, v);
    }
  }

  /** With lowercase only and the vowels excluded, one class is enabled,
      coverage applies and no vowel is in the effective alphabet. */
  lemma VowelsExcluded(o: PasswordOptions)
    requires LowerWithoutVowels(o)
    ensures EnabledClasses(o) == [Lowercase] && Covers(o)
    ensures forall v :: v in "aeiou" ==> v !in EffectiveAlphabet(o)
  {
    assert EnabledClasses(o) == [Lowercase];
    assert Lowercase[1] == 'b' && 'b' !in o.excludeCharacters;
    assert exists c :: c in Lowercase && c !in o.excludeCharacters;
    forall v | v in "aeiou"
      ensures v !in EffectiveAlphabet(o)
    {
      assert v in Lowercase;
      RequiredMayBeExcluded(o, v);
    }
  }

  /** Under coverage, a character outside the effective alphabet occurs in
      the password no more often than in the required list. */
  lemma ExcludedNotDrawn(o: PasswordOptions, pw: string, required: string, v: char)
    requires Covers(o)
    requires multiset(required) <= multiset(pw)
    requires forall c :: c in multiset(pw) - multiset(required) ==> c in EffectiveAlphabet(o)
    requires v !in EffectiveAlphabet(o)
    ensures multiset(pw)[v] <= multiset(required)[v]
  {
    assert v !in multiset(pw) - multiset(required);
  }

  /** The validator on three option records. */
  lemma ValidationExamples()
    ensures ValidatePasswordOptions(PasswordOptions(16, false, true, false, false, false, "", ""))
    ensures !ValidatePasswordOptions(PasswordOptions(16, false, false, false, false, false, "", ""))
    ensures !ValidatePasswordOptions(PasswordOptions(2, false, true, false, false, false, "", ""))
  {
  }

  /** With all four classes covered, the password earns the full diversity
      bonus from the scorer. */
  lemma CoverageGivesDiversity(o: PasswordOptions, pw: string)
    requires o.includeLowercase && o.includeUppercase && o.includeNumbers && o.includeSymbols
    requires Admissible(o, pw) && Covers(o)
    ensures DiversityBonus(pw) == 4
  {
    var cs := EnabledClasses(o);
    AllFourClasses(o);
    assert Intersects(pw, cs[0]) && Intersects(pw, cs[1]);
    assert Intersects(pw, cs[2]) && Intersects(pw, cs[3]);
    TablesGiveClasses(pw);
  }

  lemma AllFourClasses(o: PasswordOptions)
    requires o.includeLowercase && o.includeUppercase && o.includeNumbers && o.includeSymbols
    ensures EnabledClasses(o) == [Lowercase, Uppercase, Numbers, Symbols]
  {
  }

  /** A character from a fixed table is a character of the class the scorer
      tests for. */
  lemma TablesGiveClasses(pw: string)
    ensures Intersects(pw, Lowercase) ==> HasLower(pw)
    ensures Intersects(pw, Uppercase) ==> HasUpper(pw)
    ensures Intersects(pw, Numbers) ==> HasDigit(pw)
    ensures Intersects(pw, Symbols) ==> HasSymbol(pw)
  {
    forall i | 0 <= i < |pw|
      ensures pw[i] in Lowercase ==> IsLower(pw[i])
      ensures pw[i] in Uppercase ==> IsUpper(pw[i])
      ensures pw[i] in Numbers ==> IsDigit(pw[i])
      ensures pw[i] in Symbols ==> IsSymbol(pw[i])
    {
      LowercaseInRange(pw[i]);
      UppercaseInRange(pw[i]);
      NumbersInRange(pw[i]);
      SymbolsInRange(pw[i]);
    }
  }
}
