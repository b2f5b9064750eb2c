/** The character-set builder of `generatePassword`: the options record, the
    effective alphabet and the required characters, one per enabled class. */
module CharsetBuilder {
  import opened CharClasses

  /** The options the generator and the validator read. An absent
      `customCharacters` or `excludeCharacters` is the empty string: the source
      treats `undefined` and `""` alike in both places. */
  datatype PasswordOptions = PasswordOptions(
    length: int,
    includeUppercase: bool,
    includeLowercase: bool,
    includeNumbers: bool,
    includeSymbols: bool,
    excludeAmbiguous: bool,
    customCharacters: string,
    excludeCharacters: string)

  /** The fixed tables of the enabled classes, in the order the generator
      pushes their required characters: lowercase, uppercase, numbers, symbols. */
  function EnabledClasses(o: PasswordOptions): (cs: seq<string>)
    ensures |cs| <= 4
    ensures Lowercase in cs <==> o.includeLowercase
    ensures Uppercase in cs <==> o.includeUppercase
    ensures Numbers in cs <==> o.includeNumbers
    ensures Symbols in cs <==> o.includeSymbols
    ensures forall k :: 0 <= k < |cs| ==> cs[k] in [Lowercase, Uppercase, Numbers, Symbols]
  {
    assert Lowercase[0] == 'a' && Uppercase[0] == 'A' && Numbers[0] == '0' && Symbols[0] == '!';
    (if o.includeLowercase then [Lowercase] else [])
    + (if o.includeUppercase then [Uppercase] else [])
    + (if o.includeNumbers then [Numbers] else [])
    + (if o.includeSymbols then [Symbols] else [])
  }

  /** The strings of `ts` joined in order. */
  function Concat(ts: seq<string>): (r: string)
    ensures forall c :: c in r <==> exists k :: 0 <= k < |ts| && c in ts[k]
    decreases |ts|
  {
    if ts == [] then []
    else Concat(ts[..|ts| - 1]) + ts[|ts| - 1]
  }

  /** The characters of the enabled fixed tables, concatenated in push order. */
  function ClassPool(o: PasswordOptions): (pool: string) {
    Concat(EnabledClasses(o))
  }

  /** The alphabet before any exclusion: the enabled tables, then the custom
      characters. */
  function Assembled(o: PasswordOptions): (alphabet: string) {
    ClassPool(o) + o.customCharacters
  }

  /** Every occurrence of `ch` removed from `s`, the rest kept in order. */
  function RemoveChar(s: string, ch: char): (r: string)
    ensures multiset(r) == multiset(s)[ch := 0]
    ensures forall c :: c in r <==> c in s && c != ch
  {
    if s == [] then []
    else
      assert s == [s[0]] + s[1..];
      (if s[0] == ch then [] else [s[0]]) + RemoveChar(s[1..], ch)
  }

  /** `s` with every character of `chars` removed, one character of `chars`
      after the other. */
  function RemoveAll(s: string, chars: string): (r: string)
    ensures forall c :: c in r <==> c in s && c !in chars
    ensures |r| <= |s|
    decreases |chars|
  {
    if chars == [] then s
    else RemoveChar(RemoveAll(s, chars[..|chars| - 1]), chars[|chars| - 1])
  }

  /** The alphabet after the custom, exclude and ambiguous steps, before the
      fallback. */
  function Filtered(o: PasswordOptions): (alphabet: string) {
    var afterExclude := RemoveAll(Assembled(o), o.excludeCharacters);
    if o.excludeAmbiguous then RemoveAll(afterExclude, Ambiguous) else afterExclude
  }

  /** The alphabet the password is drawn from. It is never empty; when
      exclusions left something it holds exactly the assembled characters that
      were not excluded, and otherwise it is the default alphabet, which may
      bring back ambiguous or excluded characters. */
  function EffectiveAlphabet(o: PasswordOptions): (r: string)
    ensures r != []
    ensures Filtered(o) != [] ==>
      forall c :: c in r <==>
        c in Assembled(o) && c !in o.excludeCharacters && !(o.excludeAmbiguous && c in Ambiguous)
    ensures Filtered(o) == [] ==> r == DefaultAlphabet
  {
    if |Filtered(o)| == 0 then DefaultAlphabet else Filtered(o)
  }

  /** `required` is a list the builder can produce: one character per enabled
      class, in push order, each picked from that class's full table. */
  predicate RequiredFor(o: PasswordOptions, required: string) {
    |required| == |EnabledClasses(o)|
    && forall k :: 0 <= k < |required| ==> required[k] in EnabledClasses(o)[k]
  }

  /** One character of the table `t`, at an arbitrary index. */
  method PickFrom(t: string) returns (c: char)
    requires t != []
    ensures c in t
  {
    var k :| 0 <= k < |t|;
    c := t[k];
  }

  /** Removes each character of `chars` from `s` in turn, as the exclusion
      loops do. */
  method RemoveEach(s: string, chars: string) returns (r: string)
    ensures r == RemoveAll(s, chars)
  {
    r := s;
    var i := 0;
    while i < |chars|
      invariant 0 <= i <= |chars|
      invariant r == RemoveAll(s, chars[..i])
    {
      assert chars[..i + 1][..i] == chars[..i];
      r := RemoveChar(r, chars[i]);
      i := i + 1;
    }
    assert chars[..i] == chars;
  }

  /** Joining one more string appends it. */
  lemma ConcatSnoc(ts: seq<string>, t: string)
    ensures Concat(ts + [t]) == Concat(ts) + t
  {
    assert (ts + [t])[..|ts|] == ts;
  }

  /** Appends the table `t` to the alphabet and one character picked from it
      to the required list. */
  method PushClass(available: string, required: string, ghost classes: seq<string>, t: string)
    returns (available': string, required': string)
    requires t != []
    requires available == Concat(classes)
    requires |required| == |classes|
    requires forall k :: 0 <= k < |required| ==> required[k] in classes[k]
    ensures available' == Concat(classes + [t])
    ensures |required'| == |classes + [t]|
    ensures forall k :: 0 <= k < |required'| ==> required'[k] in (classes + [t])[k]
  {
    available' := available + t;
    ConcatSnoc(classes, t);
    var c := PickFrom(t);
    required' := required + [c];
  }

  /** Steps for the four fixed classes: appends each enabled table to the
      alphabet and one character picked from it to the required list. */
  method AssembleClasses(o: PasswordOptions) returns (available: string, required: string)
    ensures available == ClassPool(o)
    ensures RequiredFor(o, required)
  {
    available, required := "", "";
    ghost var classes: seq<string> := [];
    if o.includeLowercase {
      available, required := PushClass(available, required, classes, Lowercase);
      classes := classes + [Lowercase];
    }
    ghost var upTo := if o.includeLowercase then [Lowercase] else [];
    assert classes == upTo;
    if o.includeUppercase {
      available, required := PushClass(available, required, classes, Uppercase);
      classes := classes + [Uppercase];
    }
    upTo := upTo + if o.includeUppercase then [Uppercase] else [];
    assert classes == upTo;
    if o.includeNumbers {
      available, required := PushClass(available, required, classes, Numbers);
      classes := classes + [Numbers];
    }
    upTo := upTo + if o.includeNumbers then [Numbers] else [];
    assert classes == upTo;
    if o.includeSymbols {
      available, required := PushClass(available, required, classes, Symbols);
      classes := classes + [Symbols];
    }
    upTo := upTo + if o.includeSymbols then [Symbols] else [];
    assert classes == upTo;
    assert classes == EnabledClasses(o);
  }

  /** Builds the effective alphabet and the required characters. */
  method BuildCharset(o: PasswordOptions) returns (available: string, required: string)
    ensures available == EffectiveAlphabet(o)
    ensures RequiredFor(o, required)
  {
    available, required := AssembleClasses(o);
    if o.customCharacters != [] {
      available := available + o.customCharacters;
    } else {
      assert available + o.customCharacters == available;
    }
    if o.excludeCharacters != [] {
      available := RemoveEach(available, o.excludeCharacters);
    }
    if o.excludeAmbiguous {
      available := RemoveEach(available, Ambiguous);
    }
    assert available == Filtered(o);
    if |available| == 0 {
      available := DefaultAlphabet;
    }
  }

  /** The ordering quirk: a required character is picked from the full
      table before exclusions, so with lowercase alone any excluded letter can
      be the required one while the effective alphabet (not empty, so no
      fallback) no longer holds it. */
  lemma RequiredMayBeExcluded(o: PasswordOptions, v: char)
    requires EnabledClasses(o) == [Lowercase] && o.customCharacters == [] && !o.excludeAmbiguous
    requires v in Lowercase && v in o.excludeCharacters
    requires exists c :: c in Lowercase && c !in o.excludeCharacters
    ensures RequiredFor(o, [v]) && v !in EffectiveAlphabet(o)
  {
    AssembledLowercase(o);
    var c :| c in Lowercase && c !in o.excludeCharacters;
    assert c in Filtered(o);
  }

  /** Lowercase alone, without custom characters, assembles the lowercase
      table. */
  lemma AssembledLowercase(o: PasswordOptions)
    requires EnabledClasses(o) == [Lowercase] && o.customCharacters == []
    ensures Assembled(o) == Lowercase
  {
    assert Concat([Lowercase]) == Concat([]) + Lowercase;
  }

  /** The fallback can bring back what the ambiguous step removed: with no
      class and no custom characters the alphabet is the default one, ambiguous
      glyphs included. */
  lemma FallbackReintroducesAmbiguous()
    ensures var o := PasswordOptions(8, false, false, false, false, true, "", "");
      EffectiveAlphabet(o) == DefaultAlphabet && '0' in EffectiveAlphabet(o)
  {
    var o := PasswordOptions(8, false, false, false, false, true, "", "");
    assert Assembled(o) == [];
    assert DefaultAlphabet[52] == '0';
  }
}
