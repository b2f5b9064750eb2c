/** The generator: draws a password from the effective alphabet, forces one
    required character per enabled class into it and shuffles; plus the batch
    generator and the advisory options validator. Every `Math.random` draw is
    an arbitrary index in range, so each contract holds for all draws. */
module Generator {
  import opened CharClasses
  import opened CharsetBuilder
  import opened Bounds

  /** Some character of `s` occurs in `t`. */
  predicate Intersects(s: string, t: string) {
    exists c :: c in s && c in t
  }

  /** Whether the generator enforces class coverage: some class is enabled and
      the requested length is at least the number of enabled classes. */
  predicate Covers(o: PasswordOptions) {
    0 < |EnabledClasses(o)| <= o.length
  }

  /** What every password generated from `o` satisfies: the requested length
      (none for a non-positive one); each character is from the effective
      alphabet or from an enabled class table; without coverage the raw draw,
      all from the alphabet; with coverage a character of every enabled class. */
  predicate Admissible(o: PasswordOptions, password: string) {
    |password| == Max(o.length, 0)
    && (forall c :: c in password ==> c in EffectiveAlphabet(o) || c in ClassPool(o))
    && (!Covers(o) ==> forall c :: c in password ==> c in EffectiveAlphabet(o))
    && (Covers(o) ==>
          forall k :: 0 <= k < |EnabledClasses(o)| ==> Intersects(password, EnabledClasses(o)[k]))
  }

  /** Draws `length` characters from `alphabet`, none for a non-positive
      length. */
  method DrawPassword(alphabet: string, length: int) returns (password: string)
    requires alphabet != []
    ensures |password| == Max(length, 0)
    ensures forall c :: c in password ==> c in alphabet
  {
    password := "";
    var i := 0;
    while i < length
      invariant 0 <= i <= Max(length, 0)
      invariant |password| == i
      invariant forall c :: c in password ==> c in alphabet
    {
      var c := PickFrom(alphabet);
      password := password + [c];
      i := i + 1;
    }
  }

  /** Fisher–Yates: from the last cell down to the second, swaps each cell
      with an arbitrary cell at or below it. The result is a permutation. */
  method ShuffleString(s: string) returns (r: string)
    ensures |r| == |s|
    ensures multiset(r) == multiset(s)
  {
    var arr := new char[|s|](k => if 0 <= k < |s| then s[k] else ' ');
    assert arr[..] == s;
    var i := arr.Length - 1;
    while i > 0
      invariant -1 <= i < arr.Length
      invariant multiset(arr[..]) == multiset(s)
    {
      var j :| 0 <= j <= i;
      arr[i], arr[j] := arr[j], arr[i];
      i := i - 1;
    }
    r := arr[..];
  }

  /** Overwrites the first `|required|` cells of `raw` with the required
      characters, then shuffles. */
  method OverwriteAndShuffle(raw: string, required: string) returns (password: string)
    requires |required| <= |raw|
    ensures |password| == |raw|
    ensures multiset(password) == multiset(required) + multiset(raw[|required|..])
  {
    var arr := new char[|raw|](k => if 0 <= k < |raw| then raw[k] else ' ');
    var i := 0;
    while i < |required|
      invariant 0 <= i <= |required|
      invariant arr[..] == required[..i] + raw[i..]
    {
      arr[i] := required[i];
      assert required[..i + 1] == required[..i] + [required[i]];
      i := i + 1;
    }
    assert required[..i] == required;
    password := ShuffleString(arr[..]);
  }

  /** Required characters present in the password give class coverage, and
      every other character is from the alphabet. */
  lemma {:induction false} CoverageFromRequired(o: PasswordOptions, required: string, password: string)
    requires RequiredFor(o, required)
    requires multiset(required) <= multiset(password)
    requires forall c :: c in multiset(password) - multiset(required) ==> c in EffectiveAlphabet(o)
    ensures forall k :: 0 <= k < |EnabledClasses(o)| ==> Intersects(password, EnabledClasses(o)[k])
    ensures forall c :: c in password ==> c in EffectiveAlphabet(o) || c in ClassPool(o)
  {
    forall k | 0 <= k < |EnabledClasses(o)|
      ensures Intersects(password, EnabledClasses(o)[k])
    {
      assert required[k] in multiset(required);
      assert required[k] in password;
    }
    forall c | c in password
      ensures c in EffectiveAlphabet(o) || c in ClassPool(o)
    {
      if c !in EffectiveAlphabet(o) {
        assert c !in multiset(password) - multiset(required);
        assert c in multiset(required);
        var k :| 0 <= k < |required| && required[k] == c;
        assert c in EnabledClasses(o)[k];
      }
    }
  }

  /** What `generatePassword` guarantees of one result: `required` is a list
      the builder can pick, the password is admissible, and under coverage it
      holds the required characters while every other character was drawn from
      the effective alphabet. */
  predicate Generated(o: PasswordOptions, password: string, required: string) {
    RequiredFor(o, required)
    && Admissible(o, password)
    && (Covers(o) ==>
          multiset(required) <= multiset(password)
          && forall c :: c in multiset(password) - multiset(required) ==> c in EffectiveAlphabet(o))
  }

  /** `generatePassword`. The ghost `required` is the list the builder
      picked. */
  method GeneratePassword(o: PasswordOptions) returns (password: string, ghost required: string)
    ensures RequiredFor(o, required)
    ensures Admissible(o, password)
    ensures Covers(o) ==>
      multiset(required) <= multiset(password)
      && forall c :: c in multiset(password) - multiset(required) ==> c in EffectiveAlphabet(o)
  {
    var available, req := BuildCharset(o);
    required := req;
    password := DrawPassword(available, o.length);
    if o.length >= |req| && |req| > 0 {
      var raw := password;
      password := OverwriteAndShuffle(raw, req);
      forall c | c in multiset(password) - multiset(req)
        ensures c in EffectiveAlphabet(o)
      {
        assert c in raw[|req|..];
      }
      CoverageFromRequired(o, req, password);
    }
  }

  /** `generateMultiplePasswords`: `count` independent passwords, none for a
      non-positive count, each with the guarantees of one `generatePassword`
      call; the ghost `required` holds each call's required list. */
  method GenerateMultiplePasswords(o: PasswordOptions, count: int)
    returns (passwords: seq<string>, ghost required: seq<string>)
    ensures |passwords| == Max(count, 0) && |required| == |passwords|
    ensures forall k :: 0 <= k < |passwords| ==> Admissible(o, passwords[k])
    ensures forall k :: 0 <= k < |passwords| ==> Generated(o, passwords[k], required[k])
  {
    passwords, required := [], [];
    var i := 0;
    while i < count
      invariant 0 <= i <= Max(count, 0)
      invariant |passwords| == i && |required| == i
      invariant forall k :: 0 <= k < i ==> Generated(o, passwords[k], required[k])
    {
      var p, r := GeneratePassword(o);
      passwords, required := passwords + [p], required + [r];
      i := i + 1;
    }
  }

  /** `validatePasswordOptions`: something to draw from before exclusions, and
      a length in [4, 128]. */
  function ValidatePasswordOptions(o: PasswordOptions): (r: bool)
    ensures r <==> Assembled(o) != [] && 4 <= o.length <= 128
  {
    var hasCharType :=
      o.includeUppercase || o.includeLowercase || o.includeNumbers || o.includeSymbols
      || |o.customCharacters| > 0;
    var validLength := o.length >= 4 && o.length <= 128;
    hasCharType && validLength
  }

  /** Validated options that enable a class always get class coverage: the
      length is at least 4, and there are at most four classes. */
  lemma ValidOptionsAreCovered(o: PasswordOptions)
    requires ValidatePasswordOptions(o) && EnabledClasses(o) != []
    ensures Covers(o)
  {
  }

  /** Validated options without exclusions never fall back to the default
      alphabet. */
  lemma ValidWithoutExclusionsKeepsAlphabet(o: PasswordOptions)
    requires ValidatePasswordOptions(o) && o.excludeCharacters == [] && !o.excludeAmbiguous
    ensures EffectiveAlphabet(o) == Assembled(o)
  {
  }
}
