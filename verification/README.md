# Password generator core, modelled in Dafny

This project models the core of a password-generator app:

- the generator in `src/utils/passwordGenerator.ts`:
  - the character tables;
  - the alphabet builder, with its custom, exclude, ambiguous and fallback steps;
  - the random draw, the forced required characters and the Fisher–Yates shuffle;
  - the batch generator and the options validator;
  - the strength score, its labels and the crack-time buckets.
- the list logic of the password history in `src/services/storage.ts`, and the premium-status read and write, over an in-memory store.

Each `Math.random()` draw is an arbitrary index in range (`:|` inside a method). Every contract about a generated password therefore holds for every sequence of draws.

The modules are:

- `Wrappers`: `Option`.
- `CharClasses`: the five tables and the character predicates that the scorer's regular expressions test.
- `CharsetBuilder`:
  - the options record;
  - the specification functions of the alphabet (`EffectiveAlphabet`) and of the required characters (`RequiredFor`);
  - the imperative builder proved against them.
- `Generator`:
  - `generatePassword` as a method;
  - the draw loop, the overwrite loop over an array and the in-place shuffle;
  - `generateMultiplePasswords`;
  - `validatePasswordOptions`.
- `Strength`: `calculatePasswordStrength`, `getCharsetSize`, `getPasswordStrengthLabel` and `estimateCrackTime`, as functions.
- `RegexExclusion`: the exclusion step exactly as written, with its regular-expression behaviour (see Findings).
- `Storage`:
  - the history and premium functions;
  - a `StorageService` class whose two fields are the stored history and the stored user record. An absent key is `None`.
- `Bounds`: `Min` and `Max`.
- `Scenarios`: lemmas about concrete option records. Most take an `Admissible` password; `VowelExclusionScenario` takes instead the required list and multiset guarantee that `GeneratePassword` ensures.

Three behaviours of the code that a reader might not expect:

- **Validation.** `validatePasswordOptions` requires a length in [4, 128] even when only custom characters are given: it is (some class or custom characters) **and** a valid length, `Generator.ValidatePasswordOptions`.
- **Excluded vowels.** Excluding `aeiou` does not keep vowels out of a lowercase-only password. The required lowercase character is picked from the full table before exclusions are applied: `CharsetBuilder.RequiredMayBeExcluded` and `Scenarios.VowelExclusionScenario`.
- **`VeryStrong`.** The raw strength score lies in [-3, 9], so `VeryStrong` is never returned: `Strength.CalculatePasswordStrength`.

## Model

| member | source | states |
|---|---|---|
| CharClasses.SymbolsInRange | src/utils/passwordGenerator.ts:6 | every character of the symbol table is one the scorer's `[^a-zA-Z0-9]` counts as a symbol |
| CharClasses.LowercaseInRange | src/utils/passwordGenerator.ts:4 | every character of the lowercase table matches `[a-z]` |
| CharClasses.UppercaseInRange | src/utils/passwordGenerator.ts:3 | every character of the uppercase table matches `[A-Z]` |
| CharClasses.NumbersInRange | src/utils/passwordGenerator.ts:5 | every character of the digit table matches `[0-9]` |
| CharClasses.AmbiguousNotSymbol | src/utils/passwordGenerator.ts:7 | the ambiguous glyphs are letters or digits of the default alphabet, never symbols |
| CharsetBuilder.EnabledClasses | src/utils/passwordGenerator.ts:15-41 | at most four tables, only the four fixed ones; a class's table is among them iff that class is enabled, so a disabled class adds nothing |
| CharsetBuilder.Concat | src/utils/passwordGenerator.ts:15-41 | a character is in the joined alphabet iff it is in one of the joined tables |
| CharsetBuilder.RemoveChar | src/utils/passwordGenerator.ts:50-55 | removing one excluded character drops all of its occurrences and keeps every other character with its count |
| CharsetBuilder.RemoveAll | src/utils/passwordGenerator.ts:49-63 | after the exclude loop a character remains iff it was present and not excluded; the alphabet never grows |
| CharsetBuilder.EffectiveAlphabet | src/utils/passwordGenerator.ts:43-68 | the alphabet is never empty. If the filters leave something, it is exactly the assembled characters not excluded and, when requested, not ambiguous. Otherwise it is lowercase+uppercase+digits |
| CharsetBuilder.PickFrom | src/utils/passwordGenerator.ts:17-19 | a random index into a non-empty table yields a character of that table |
| CharsetBuilder.RemoveEach | src/utils/passwordGenerator.ts:50-55 | the loop over the excluded characters computes `RemoveAll` |
| CharsetBuilder.ConcatSnoc | src/utils/passwordGenerator.ts:16 | appending a table to the alphabet joins it at the end |
| CharsetBuilder.PushClass | src/utils/passwordGenerator.ts:15-20 | one class step appends the table to the alphabet and one of its characters to the required list |
| CharsetBuilder.AssembleClasses | src/utils/passwordGenerator.ts:14-41 | the class steps build the enabled tables in push order and one required character per class, from that class |
| CharsetBuilder.BuildCharset | src/utils/passwordGenerator.ts:10-68 | the builder's alphabet is `EffectiveAlphabet` and its required list satisfies `RequiredFor` |
| CharsetBuilder.RequiredMayBeExcluded | src/utils/passwordGenerator.ts:15-56 | with lowercase alone, any excluded letter can be the required character while the effective alphabet (not empty, so no fallback) lacks it |
| CharsetBuilder.AssembledLowercase | src/utils/passwordGenerator.ts:15-46 | lowercase alone, without custom characters, assembles exactly the lowercase table |
| CharsetBuilder.FallbackReintroducesAmbiguous | src/utils/passwordGenerator.ts:58-68 | with nothing enabled the fallback alphabet is used and holds ambiguous glyphs even when they were to be excluded |
| Generator.DrawPassword | src/utils/passwordGenerator.ts:70-74 | the draw yields `max(length, 0)` characters, all from the alphabet |
| Generator.ShuffleString | src/utils/passwordGenerator.ts:163-170 | the shuffle keeps the length and is a permutation (same multiset) |
| Generator.OverwriteAndShuffle | src/utils/passwordGenerator.ts:77-84 | after overwriting the first cells and shuffling, the password is the required characters plus the untouched drawn ones, as a multiset |
| Generator.CoverageFromRequired | src/utils/passwordGenerator.ts:77-84 | if the required characters are present and the rest come from the alphabet, every enabled class occurs and every character is from the alphabet or a class table |
| Generator.GeneratePassword | src/utils/passwordGenerator.ts:9-87 | the password has the requested length (none if it is not positive). Without coverage every character is from the effective alphabet. With coverage (classes enabled, length at least their number) it holds a character of every enabled class, namely the required ones plus alphabet draws |
| Generator.GenerateMultiplePasswords | src/utils/passwordGenerator.ts:181-190 | `max(count, 0)` passwords, each with everything `GeneratePassword` guarantees of one call (its required list, admissibility, and under coverage the required characters plus alphabet draws) |
| Generator.ValidatePasswordOptions | src/utils/passwordGenerator.ts:192-206 | valid iff some class or custom character is given and 4 <= length <= 128 |
| Generator.ValidOptionsAreCovered | src/utils/passwordGenerator.ts:192-206 | valid options with a class enabled always get class coverage from the generator |
| Generator.ValidWithoutExclusionsKeepsAlphabet | src/utils/passwordGenerator.ts:192-206 | valid options without exclusions never fall back to the default alphabet |
| Strength.PasswordStrength.Level | src/utils/passwordGenerator.ts:122-124 | the levels are the ordinals 0 to 5 |
| Strength.FromLevel | src/utils/passwordGenerator.ts:122-124 | an ordinal in [0, 5] casts to the level with that ordinal |
| Strength.PowMonotone | src/utils/passwordGenerator.ts:143 | `charsetSize^length` does not decrease with the length |
| Strength.PowMonotoneBase | src/utils/passwordGenerator.ts:143 | `charsetSize^length` does not decrease with the charset size |
| Strength.CharsetSize | src/utils/passwordGenerator.ts:172-179 | the size is between 10 and 94. The empty password gets the default 26. A password with a letter gets at least 26 |
| Strength.SomeClass | src/utils/passwordGenerator.ts:172-179 | a non-empty password matches at least one of the four class tests, and it cannot be both letters-only and digits-only |
| Strength.LengthBonus | src/utils/passwordGenerator.ts:98-100 | the length criteria add between 0 and 3 |
| Strength.DiversityBonus | src/utils/passwordGenerator.ts:103-106 | the diversity criteria add between 0 and 4 |
| Strength.PatternPenalty | src/utils/passwordGenerator.ts:109-112 | the pattern checks subtract between 0 and 5 |
| Strength.EntropyBonus | src/utils/passwordGenerator.ts:115-119 | the entropy criteria add between 0 and 2 |
| Strength.HasTripleRun | src/utils/passwordGenerator.ts:109 | `/(.)\1{2,}/`: the same character three times in a row, where `.` excludes the line terminators; such a password has at least 3 characters |
| Strength.TripleRunRepeats | src/utils/passwordGenerator.ts:109 | a password with such a run holds some non-line-terminator character at least three times |
| Strength.LettersOnly | src/utils/passwordGenerator.ts:110 | `/^[a-zA-Z]+$/`: a non-empty password of letters only, so with no digit and no symbol |
| Strength.DigitsOnly | src/utils/passwordGenerator.ts:111 | `/^[0-9]+$/`: a non-empty password of digits only, so with no letter and no symbol |
| Strength.FoldCase | src/utils/passwordGenerator.ts:112 | the `i` flag without `u` folds ASCII only: the result is never upper case, it is a letter iff the input is, and anything but an upper-case letter is unchanged |
| Strength.CommonPrefix | src/utils/passwordGenerator.ts:112 | `/^(123\|abc\|qwerty\|password)/i`: such a password has at least 3 characters and starts with `1`, `a`, `q` or `p` in either case |
| Strength.RawScore | src/utils/passwordGenerator.ts:94-119 | the accumulated strength of a non-empty password lies in [-3, 9] |
| Strength.CalculatePasswordStrength | src/utils/passwordGenerator.ts:89-125 | the empty password is `VeryWeak`; otherwise the level is half the score, floored, and 0 for a negative score; `VeryStrong` is never returned |
| Strength.StrengthOfScore | src/utils/passwordGenerator.ts:121-124 | the level follows from the sum of the score's parts |
| Strength.EntropyMonotone | src/utils/passwordGenerator.ts:115-119 | over the same charset, a longer password never loses an entropy step |
| Strength.ScoreMonotoneInLength | src/utils/passwordGenerator.ts:94-119 | with the same classes and pattern penalties, a longer non-empty password never has a lower raw score |
| Strength.LevelMonotone | src/utils/passwordGenerator.ts:122 | the normalisation `max(0, min(5, floor(s / 2)))` never maps a higher score to a lower level |
| Strength.StrengthMonotoneInLength | src/utils/passwordGenerator.ts:97-119 | with the same classes and pattern penalties, a longer password never scores a lower level |
| Strength.Troubador | src/utils/passwordGenerator.ts:89-125 | `Tr0ub4dor&3` scores `Good`: length bonus 1, four classes, no pattern, one entropy step |
| Strength.PowNinetyFourEleven | src/utils/passwordGenerator.ts:115-119 | 94^11 has at least 60 bits and fewer than 80 bits of entropy |
| Strength.Label | src/utils/passwordGenerator.ts:127-139 | every level has a non-empty display label |
| Strength.LabelInjective | src/utils/passwordGenerator.ts:130-137 | distinct levels have distinct labels |
| Strength.CrackTimeFor | src/utils/passwordGenerator.ts:144-155 | at 10^9 guesses per second and half the space searched: `Instantly` iff under one second; `Centuries` iff at least 100 years; otherwise the bucket's count is the floor of the time in that unit, within the bucket's range |
| Strength.CrackTimeMonotone | src/utils/passwordGenerator.ts:146-155 | more possibilities never give a shorter estimate |
| Strength.EstimateCrackTime | src/utils/passwordGenerator.ts:141-156 | a password of at most 4 characters reads `Instantly` and one of 19 or more reads `Centuries`, whatever its classes |
| Strength.EstimateCrackTimeMonotone | src/utils/passwordGenerator.ts:141-156 | with the same charset size, a longer password never gets a shorter estimate |
| RegexExclusion.KeepLineTerminators | src/utils/passwordGenerator.ts:51-54 | replacing every match of `.` keeps exactly the line terminators |
| RegexExclusion.ReplaceAllAsWritten | src/utils/passwordGenerator.ts:50-55 | one pass with the unescaped character as a pattern: throws iff the character is one of `*+?()[\`; leaves the alphabet unchanged for `^$\|`; leaves only line terminators for `.`; otherwise it is the exact removal |
| RegexExclusion.ExcludeAsWritten | src/utils/passwordGenerator.ts:49-56 | the exclusion loop as written throws (`None`) iff some excluded character is a throwing pattern, and otherwise never adds a character |
| RegexExclusion.EffectiveAlphabetAsWritten | src/utils/passwordGenerator.ts:43-68 | the alphabet as written: `None` iff a throwing character is excluded; otherwise never empty, and every character is assembled or comes from the default fallback |
| RegexExclusion.ExcludeAgreesOnPlainChars | src/utils/passwordGenerator.ts:49-56 | with no regex syntax character excluded, the loop as written equals the exact removal |
| RegexExclusion.AsWrittenAgreesOnPlainChars | src/utils/passwordGenerator.ts:43-68 | with no regex syntax character excluded, the as-written alphabet is `EffectiveAlphabet` |
| RegexExclusion.DotOnLetters | src/utils/passwordGenerator.ts:49-56 | on letters, excluding `.` as written leaves nothing, while the exact removal leaves everything |
| RegexExclusion.ExcludingDotWipesAlphabet | src/utils/passwordGenerator.ts:49-68 | lowercase only, excluding `.`: as written the alphabet falls back to the default; intended, it stays the lowercase table |
| RegexExclusion.ExcludingStarThrows | src/utils/passwordGenerator.ts:49-56 | excluding `*` makes generation throw as written |
| Storage.SpliceStart | src/services/storage.ts:56-58 | `splice(start)` cuts at `start` clamped to the length, or for a negative start that far from the end but not before 0; the cut never lies past the end |
| Storage.BoundedPrepend | src/services/storage.ts:47-65 | the new entry comes first, followed by the old entries in order. For `maxCount >= 0` there are min(old length + 1, `maxCount`) entries; a negative bound drops that many from the end |
| Storage.WithoutId | src/services/storage.ts:67-76 | no entry with the removed id remains, and the list does not grow |
| Storage.WithoutIdCounts | src/services/storage.ts:70 | every entry with another id keeps its number of occurrences; entries with the id are gone |
| Storage.WithoutIdCons | src/services/storage.ts:70 | the filter on a list with a head keeps or drops that head and filters the rest |
| Storage.WithoutIdAppend | src/services/storage.ts:70 | the filter keeps the relative order: it commutes with concatenation |
| Storage.WithoutAbsentId | src/services/storage.ts:67-76 | removing an id that no entry has leaves the history unchanged |
| Storage.WithoutIdIdempotent | src/services/storage.ts:67-76 | removing an id twice is the same as removing it once |
| Storage.PremiumStatus | src/services/storage.ts:186-203 | premium only for a stored user flagged premium; lifetime premium without an expiry; with an expiry, premium iff flagged and now is before it |
| Storage.PremiumExpiryIsFinal | src/services/storage.ts:191-197 | once not premium, a later time is not premium either |
| Storage.WithPremium | src/services/storage.ts:210-215 | without a user record nothing is stored; otherwise exactly the two premium fields are replaced |
| Storage.SetThenGetPremium | src/services/storage.ts:186-220 | the status read after a set is what was set, provided a user record exists and the expiry, if any, lies ahead |
| Storage.StorageService.GetPasswordHistory | src/services/storage.ts:17-33 | the stored history, or the empty list when the key is absent |
| Storage.StorageService.SavePasswordHistory | src/services/storage.ts:35-45 | the history key holds the given list; the user record is untouched |
| Storage.StorageService.AddPasswordToHistory | src/services/storage.ts:47-65 | the stored history becomes `BoundedPrepend` of the old one, with `maxCount` 10 by default; the user record is untouched |
| Storage.StorageService.RemovePasswordFromHistory | src/services/storage.ts:67-76 | the stored history becomes the old one without the id; the user record is untouched |
| Storage.StorageService.ClearPasswordHistory | src/services/storage.ts:78-85 | the key is removed, so reading gives the empty list; the user record is untouched |
| Storage.StorageService.GetPremiumStatus | src/services/storage.ts:186-203 | the result is `PremiumStatus` of the stored user at the given time |
| Storage.StorageService.SetPremiumStatus | src/services/storage.ts:205-220 | the stored user becomes `WithPremium` of the old one; the history is untouched |
| Scenarios.MixedClassesScenario | src/utils/passwordGenerator.ts:9-87 | length 12 with lowercase, uppercase and digits: 12 characters, each of the three classes occurs, no symbol |
| Scenarios.MixedAlphabet | src/utils/passwordGenerator.ts:14-68 | lowercase, uppercase and digits without exclusions: the alphabet is the three tables joined |
| Scenarios.NoSymbolInMixedPool | src/utils/passwordGenerator.ts:14-41 | letter and digit tables hold no symbol |
| Scenarios.VowelExclusionScenario | src/utils/passwordGenerator.ts:15-84 | lowercase only with `aeiou` excluded: each vowel occurs at most as often as in the single required character, so at most one vowel occurs |
| Scenarios.VowelsExcluded | src/utils/passwordGenerator.ts:15-68 | lowercase only with `aeiou` excluded: one class, coverage applies, and no vowel is in the effective alphabet |
| Scenarios.ExcludedNotDrawn | src/utils/passwordGenerator.ts:70-84 | under coverage a character missing from the effective alphabet occurs no more often than in the required list |
| Scenarios.ValidationExamples | src/utils/passwordGenerator.ts:192-206 | lowercase at length 16 is valid; no class is invalid; length 2 is invalid |
| Scenarios.CoverageGivesDiversity | src/utils/passwordGenerator.ts:77-106 | a covered password from all four classes earns the full diversity bonus of the scorer |
| Scenarios.TablesGiveClasses | src/utils/passwordGenerator.ts:103-106 | a character from a fixed table passes that class's scorer test |

## Left out

- Characters are Dafny `char`s, not UTF-16 code units. Iterating with `for … of` and indexing with `[]` differ only for characters outside the Basic Multilingual Plane, which the model does not distinguish.
- Floating point. `length * Math.log2(size) >= 60` is modelled as `size^length >= 2^60`, which is exact; rounding of `log2` at the boundary is not modelled. `Math.pow` is an exact integer, so `Infinity` for huge passwords is not modelled; it reads `Centuries` either way.
- Generator.GeneratePassword and Generator.ShuffleString: they state which characters occur and the permutation, not the probability distribution of `Math.random`. Each draw is an arbitrary index in range.
- Options are typed: `length` and `count` are integers (a fractional or `NaN` length is not modelled), and an absent `customCharacters` or `excludeCharacters` is the empty string.
- Strength.EstimateCrackTime: returns the bucket and its count as a `CrackTime` value, not the formatted English string.
- The regular-expression engine is replaced by character predicates. The one place where regex semantics matter, the exclusion step, is modelled separately in `RegexExclusion`.
- `AsyncStorage`, JSON encoding, `Date` reconstruction of timestamps, `console.error` and the `try`/`catch` recovery paths are left out. A failing store is not modelled: reads never fail and writes always succeed.
- Time is not read from a clock. `GetPremiumStatus` takes the current time in milliseconds as a parameter, and expiry dates are integers.
- The other storage operations are not part of this model: user data save/clear, preferences, ad configuration, first launch, last sync, `clearAllData`, `exportData` and `importData`.
- Storage.PremiumStatus: an expiry that is present but falsy, or an invalid date, is not modelled; an expiry is either absent or a number.

## Findings

| source | as written | input that shows it | evidently intended | confidence | as-written member | corrected member |
|---|---|---|---|---|---|---|
| src/utils/passwordGenerator.ts:159-161 | `escapeRegExp`'s pattern is a class followed by two backslashes and `]`, so it only matches 4-character sequences and never escapes a lone character. Each excluded character becomes a raw regex: `.` removes every non-line-terminator, `^ $ \|` remove nothing, and `* + ? ( ) [ \` throw | lowercase only, `excludeCharacters: "."` gives an empty alphabet and the default fallback (upper case and digits reappear); `"*"` throws | remove exactly the excluded characters | high, not executed | RegexExclusion.ExcludingDotWipesAlphabet | CharsetBuilder.EffectiveAlphabet |
