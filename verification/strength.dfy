/** The strength estimator: the integer score of `calculatePasswordStrength`,
    the six-level scale, its display labels and the bucketed crack-time
    estimate. Regular-expression tests are character predicates; the
    floating-point entropy and power are exact integer comparisons. */
module Strength {
  import opened CharClasses

  /** `PasswordStrength`, in increasing order. */
  datatype PasswordStrength = VeryWeak | Weak | Fair | Good | Strong | VeryStrong {
    function Level(): (n: nat)
      ensures n <= 5
    {
      match this
      case VeryWeak => 0
      case Weak => 1
      case Fair => 2
      case Good => 3
      case Strong => 4
      case VeryStrong => 5
    }
  }

  /** The level with ordinal `n`. */
  function FromLevel(n: int): (s: PasswordStrength)
    requires 0 <= n <= 5
    ensures s.Level() == n
  {
    if n == 0 then VeryWeak
    else if n == 1 then Weak
    else if n == 2 then Fair
    else if n == 3 then Good
    else if n == 4 then Strong
    else VeryStrong
  }

  function Pow(b: nat, e: nat): (r: nat) {
    if e == 0 then 1 else b * Pow(b, e - 1)
  }

  lemma {:induction false} PowPositive(b: nat, e: nat)
    requires b >= 1
    ensures Pow(b, e) >= 1
  {
    if e > 0 {
      PowPositive(b, e - 1);
    }
  }

  /** A power of a positive base does not decrease with the exponent. */
  lemma {:induction false} PowMonotone(b: nat, e1: nat, e2: nat)
    requires b >= 1 && e1 <= e2
    ensures Pow(b, e1) <= Pow(b, e2)
  {
    if e1 < e2 {
      PowMonotone(b, e1, e2 - 1);
      PowPositive(b, e2 - 1);
      assert Pow(b, e2) == b * Pow(b, e2 - 1) >= Pow(b, e2 - 1);
    }
  }

  // The regular-expression tests

  /** `/[a-z]/` */
  predicate HasLower(p: string) { exists i :: 0 <= i < |p| && IsLower(p[i]) }

  /** `/[A-Z]/` */
  predicate HasUpper(p: string) { exists i :: 0 <= i < |p| && IsUpper(p[i]) }

  /** `/[0-9]/` */
  predicate HasDigit(p: string) { exists i :: 0 <= i < |p| && IsDigit(p[i]) }

  /** `/[^a-zA-Z0-9]/` */
  predicate HasSymbol(p: string) { exists i :: 0 <= i < |p| && IsSymbol(p[i]) }

  /** `/(.)\1{2,}/`: one character other than a line terminator three or more
      times in a row. */
  predicate HasTripleRun(p: string): (b: bool)
    ensures b ==> |p| >= 3
  {
    exists i :: 0 <= i && i + 2 < |p| && p[i] == p[i + 1] && p[i + 1] == p[i + 2]
                && !IsLineTerminator(p[i])
  }

  /** A run of three means some character other than a line terminator occurs
      at least three times. */
  lemma TripleRunRepeats(p: string)
    requires HasTripleRun(p)
    ensures exists c :: !IsLineTerminator(c) && multiset(p)[c] >= 3
  {
    var i :| 0 <= i && i + 2 < |p| && p[i] == p[i + 1] && p[i + 1] == p[i + 2]
             && !IsLineTerminator(p[i]);
    var c := p[i];
    assert p == p[..i] + [c, c, c] + p[i + 3..];
    assert multiset(p) == multiset(p[..i]) + multiset([c, c, c]) + multiset(p[i + 3..]);
  }

  /** `/^[a-zA-Z]+$/`: non-empty, with no digit and no symbol. */
  predicate LettersOnly(p: string): (b: bool)
    ensures b ==> p != [] && !HasDigit(p) && !HasSymbol(p)
  {
    p != [] && forall i :: 0 <= i < |p| ==> IsLower(p[i]) || IsUpper(p[i])
  }

  /** `/^[0-9]+$/`: non-empty, with no letter and no symbol. */
  predicate DigitsOnly(p: string): (b: bool)
    ensures b ==> p != [] && !HasLower(p) && !HasUpper(p) && !HasSymbol(p)
  {
    p != [] && forall i :: 0 <= i < |p| ==> IsDigit(p[i])
  }

  /** ASCII case folding, which is all the `i` flag does without the `u` flag. */
  function FoldCase(c: char): (d: char)
    ensures !IsUpper(d)
    ensures IsLower(d) <==> IsLower(c) || IsUpper(c)
    ensures !IsUpper(c) ==> d == c
  {
    if IsUpper(c) then (c as int + 32) as char else c
  }

  /** `p` starts with `w` when compared case-insensitively; `w` is lower case. */
  predicate StartsFolded(p: string, w: string) {
    |w| <= |p| && forall i :: 0 <= i < |w| ==> FoldCase(p[i]) == w[i]
  }

  /** `/^(123|abc|qwerty|password)/i`: at least three characters, the first
      folding to `1`, `a`, `q` or `p`. */
  predicate CommonPrefix(p: string): (b: bool)
    ensures b ==> |p| >= 3 && FoldCase(p[0]) in "1aqp"
  {
    StartsFolded(p, "123") || StartsFolded(p, "abc") || StartsFolded(p, "qwerty")
    || StartsFolded(p, "password")
  }

  function B(b: bool): (n: int) {
    if b then 1 else 0
  }

  /** `getCharsetSize`: 26, 26, 10 and 32 for each class present, 26 when
      none is. Only the empty string has none. */
  function CharsetSize(p: string): (r: nat)
    ensures 10 <= r <= 94
    ensures p == [] ==> r == 26
    ensures HasLower(p) || HasUpper(p) ==> r >= 26
  {
    var size := 26 * B(HasLower(p)) + 26 * B(HasUpper(p)) + 10 * B(HasDigit(p))
                + 32 * B(HasSymbol(p));
    if size == 0 then 26 else size
  }

  /** A non-empty string always has a character class. */
  lemma SomeClass(p: string)
    requires p != []
    ensures HasLower(p) || HasUpper(p) || HasDigit(p) || HasSymbol(p)
    ensures !(LettersOnly(p) && DigitsOnly(p))
  {
    assert IsLower(p[0]) || IsUpper(p[0]) || IsDigit(p[0]) || IsSymbol(p[0]);
  }

  /** 2^60 and 2^80: `length * log2(charsetSize) >= 60` is
      `charsetSize^length >= 2^60`, and likewise for 80. */
  const TwoTo60: nat := 0x1000_0000_0000_0000
  const TwoTo80: nat := 0x1_0000_0000_0000_0000_0000

  function LengthBonus(n: nat): (r: int)
    ensures 0 <= r <= 3
  {
    B(n >= 8) + B(n >= 12) + B(n >= 16)
  }

  function DiversityBonus(p: string): (r: int)
    ensures 0 <= r <= 4
  {
    B(HasLower(p)) + B(HasUpper(p)) + B(HasDigit(p)) + B(HasSymbol(p))
  }

  function PatternPenalty(p: string): (r: int)
    ensures 0 <= r <= 5
  {
    B(HasTripleRun(p)) + B(LettersOnly(p)) + B(DigitsOnly(p)) + 2 * B(CommonPrefix(p))
  }

  /** The entropy bonus for `size^length` possibilities. */
  function EntropyBonus(size: nat, length: nat): (r: int)
    ensures 0 <= r <= 2
  {
    var possibilities := Pow(size, length);
    B(possibilities >= TwoTo60) + B(possibilities >= TwoTo80)
  }

  /** The accumulator `strength` of `calculatePasswordStrength` before
      normalisation. It lies in [-3, 9]. */
  function RawScore(p: string): (s: int)
    requires p != []
    ensures -3 <= s <= 9
  {
    SomeClass(p);
    LengthBonus(|p|) + DiversityBonus(p) - PatternPenalty(p) + EntropyBonus(CharsetSize(p), |p|)
  }

  /** `calculatePasswordStrength`: `floor(s / 2)` clamped to [0, 5]. Dafny's
      division by 2 is the floor also for negative `s`. The empty string is
      `VeryWeak`, and since the score never exceeds 9, `VeryStrong` is never
      returned. */
  function CalculatePasswordStrength(p: string): (r: PasswordStrength)
    ensures p == [] ==> r == VeryWeak
    ensures r != VeryStrong
    ensures p != [] ==> r.Level() == (if RawScore(p) < 0 then 0 else RawScore(p) / 2)
  {
    if p == [] then VeryWeak
    else
      var half := RawScore(p) / 2;
      FromLevel(if half < 0 then 0 else if half > 5 then 5 else half)
  }

  /** Two passwords with the same classes present and the same pattern
      penalties. */
  predicate SameProfile(p: string, q: string) {
    HasLower(p) == HasLower(q) && HasUpper(p) == HasUpper(q)
    && HasDigit(p) == HasDigit(q) && HasSymbol(p) == HasSymbol(q)
    && PatternPenalty(p) == PatternPenalty(q)
  }

  /** Lengthening a password without changing its classes or patterns never
      lowers its strength. */
  lemma StrengthMonotoneInLength(p: string, q: string)
    requires SameProfile(p, q) && |p| <= |q|
    ensures CalculatePasswordStrength(p).Level() <= CalculatePasswordStrength(q).Level()
  {
    if p != [] {
      ScoreMonotoneInLength(p, q);
      LevelMonotone(RawScore(p), RawScore(q), CalculatePasswordStrength(p), CalculatePasswordStrength(q));
    }
  }

  /** The raw score part of `StrengthMonotoneInLength`. */
  lemma ScoreMonotoneInLength(p: string, q: string)
    requires SameProfile(p, q) && 0 < |p| <= |q|
    ensures RawScore(p) <= RawScore(q)
  {
    assert CharsetSize(p) == CharsetSize(q);
    assert DiversityBonus(p) == DiversityBonus(q);
    EntropyMonotone(CharsetSize(p), |p|, |q|);
  }

  /** A level computed from a higher score is no lower. */
  lemma LevelMonotone(s1: int, s2: int, r1: PasswordStrength, r2: PasswordStrength)
    requires s1 <= s2
    requires r1.Level() == (if s1 < 0 then 0 else s1 / 2)
    requires r2.Level() == (if s2 < 0 then 0 else s2 / 2)
    ensures r1.Level() <= r2.Level()
  {
  }

  /** More characters over the same charset never lose an entropy step. */
  lemma EntropyMonotone(size: nat, n1: nat, n2: nat)
    requires 1 <= size && n1 <= n2
    ensures EntropyBonus(size, n1) <= EntropyBonus(size, n2)
  {
    PowMonotone(size, n1, n2);
  }

  /** The classic example scores `Good`: length 11, four classes, no pattern,
      94^11 at least 2^60 but below 2^80, so a score of 6. */
  lemma Troubador()
    ensures CalculatePasswordStrength("Tr0ub4dor&3") == Good
  {
    var p := "Tr0ub4dor&3";
    TroubadorParts(p);
    StrengthOfScore(p, 6);
  }

  lemma TroubadorParts(p: string)
    requires p == "Tr0ub4dor&3"
    ensures LengthBonus(|p|) == 1 && DiversityBonus(p) == 4 && PatternPenalty(p) == 0
    ensures EntropyBonus(CharsetSize(p), |p|) == 1
  {
    TroubadorClasses(p);
    TroubadorPatterns(p);
    PowNinetyFourEleven();
  }

  lemma TroubadorClasses(p: string)
    requires p == "Tr0ub4dor&3"
    ensures HasLower(p) && HasUpper(p) && HasDigit(p) && HasSymbol(p) && CharsetSize(p) == 94
  {
    assert IsUpper(p[0]) && IsLower(p[1]) && IsDigit(p[2]) && IsSymbol(p[9]);
  }

  lemma TroubadorPatterns(p: string)
    requires p == "Tr0ub4dor&3"
    ensures !HasTripleRun(p) && !LettersOnly(p) && !DigitsOnly(p) && !CommonPrefix(p)
  {
    assert !IsLower(p[2]) && !IsUpper(p[2]) && !IsDigit(p[0]);
    assert FoldCase(p[0]) == 't';
    forall i | 0 <= i && i + 2 < |p|
      ensures p[i] != p[i + 1]
    {
      assert i in {0, 1, 2, 3, 4, 5, 6, 7, 8};
    }
  }

  /** The level from the score's parts: half the score, clamped. */
  lemma StrengthOfScore(p: string, s: int)
    requires p != []
    requires LengthBonus(|p|) + DiversityBonus(p) - PatternPenalty(p)
             + EntropyBonus(CharsetSize(p), |p|) == s
    ensures CalculatePasswordStrength(p).Level() == if s < 0 then 0 else s / 2
  {
  }

  lemma PowNinetyFourEleven()
    ensures TwoTo60 <= Pow(94, 11) < TwoTo80
    ensures EntropyBonus(94, 11) == 1
  {
    var x := 94;
    assert Pow(x, 1) == 94;
    assert Pow(x, 2) == 8836;
    assert Pow(x, 3) == 830584;
    assert Pow(x, 4) == 78074896;
    assert Pow(x, 5) == 7339040224;
    assert Pow(x, 6) == 689869781056;
    assert Pow(x, 7) == 64847759419264;
    assert Pow(x, 8) == 6095689385410816;
    assert Pow(x, 9) == 572994802228616704;
    assert Pow(x, 10) == 53861511409489970176;
    assert Pow(x, 11) == 5062982072492057196544;
  }

  /** `getPasswordStrengthLabel`: the display name of each level. */
  function Label(s: PasswordStrength): (r: string)
    ensures r != []
  {
    match s
    case VeryWeak => "Very Weak"
    case Weak => "Weak"
    case Fair => "Fair"
    case Good => "Good"
    case Strong => "Strong"
    case VeryStrong => "Very Strong"
  }

  /** Distinct levels have distinct labels. */
  lemma LabelInjective(s: PasswordStrength, t: PasswordStrength)
    ensures Label(s) == Label(t) ==> s == t
  {
  }

  // Crack time

  /** The text `estimateCrackTime` returns, without the number formatting. */
  datatype CrackTime =
    | Instantly
    | Seconds(n: nat)
    | Minutes(n: nat)
    | Hours(n: nat)
    | Days(n: nat)
    | Years(n: nat)
    | Centuries
  {
    /** The bucket's place in ascending order. */
    function Rank(): nat {
      match this
      case Instantly => 0
      case Seconds(_) => 1
      case Minutes(_) => 2
      case Hours(_) => 3
      case Days(_) => 4
      case Years(_) => 5
      case Centuries => 6
    }

    /** The number shown, 0 for the buckets without one. */
    function Count(): nat {
      match this
      case Instantly => 0
      case Centuries => 0
      case _ => this.n
    }
  }

  /** `a` reads as no longer than `b`: an earlier bucket, or the same bucket
      with a count no larger. */
  predicate NoLonger(a: CrackTime, b: CrackTime) {
    a.Rank() < b.Rank() || (a.Rank() == b.Rank() && a.Count() <= b.Count())
  }

  /** Twice a billion guesses per second: the average search covers half the
      possibilities. */
  const HalfRate: nat := 2_000_000_000

  /** The seconds in each unit. */
  const Minute: nat := 60
  const Hour: nat := 3600
  const Day: nat := 86400
  const Year: nat := 31536000
  const Century: nat := 3153600000

  /** The bucket for `possibilities` guesses at `HalfRate` per second: the
      count shown is the number of whole units in the expected time, and lies
      below the next unit. */
  function CrackTimeFor(possibilities: nat): (r: CrackTime)
    ensures r.Instantly? <==> possibilities < HalfRate
    ensures r.Centuries? <==> possibilities >= Century * HalfRate
    ensures r.Seconds? ==> r.n * HalfRate <= possibilities < (r.n + 1) * HalfRate && 1 <= r.n < 60
    ensures r.Minutes? ==>
      r.n * Minute * HalfRate <= possibilities < (r.n + 1) * Minute * HalfRate && 1 <= r.n < 60
    ensures r.Hours? ==>
      r.n * Hour * HalfRate <= possibilities < (r.n + 1) * Hour * HalfRate && 1 <= r.n < 24
    ensures r.Days? ==>
      r.n * Day * HalfRate <= possibilities < (r.n + 1) * Day * HalfRate && 1 <= r.n < 365
    ensures r.Years? ==>
      r.n * Year * HalfRate <= possibilities < (r.n + 1) * Year * HalfRate && 1 <= r.n < 100
  {
    var p := possibilities;
    if p < HalfRate then Instantly
    else if p < Minute * HalfRate then Seconds(p / HalfRate)
    else if p < Hour * HalfRate then Minutes(p / (Minute * HalfRate))
    else if p < Day * HalfRate then Hours(p / (Hour * HalfRate))
    else if p < Year * HalfRate then Days(p / (Day * HalfRate))
    else if p < Century * HalfRate then Years(p / (Year * HalfRate))
    else Centuries
  }

  /** More possibilities never read as a shorter time. */
  lemma CrackTimeMonotone(p1: nat, p2: nat)
    requires p1 <= p2
    ensures NoLonger(CrackTimeFor(p1), CrackTimeFor(p2))
  {
  }

  /** `estimateCrackTime`: the bucket for `charsetSize^length`. Even with
      all four classes a password of at most 4 characters reads `Instantly`,
      and even with digits only one of 19 or more reads `Centuries`. */
  function EstimateCrackTime(p: string): (r: CrackTime)
    ensures |p| <= 4 ==> r == Instantly
    ensures |p| >= 19 ==> r == Centuries
  {
    var size := CharsetSize(p);
    if |p| <= 4 then
      PowMonotoneBase(size, 94, |p|);
      PowMonotone(94, |p|, 4);
      PowSmall();
      CrackTimeFor(Pow(size, |p|))
    else if |p| >= 19 then
      PowMonotoneBase(10, size, |p|);
      PowMonotone(10, 19, |p|);
      PowLarge();
      CrackTimeFor(Pow(size, |p|))
    else
      CrackTimeFor(Pow(size, |p|))
  }

  /** A power does not decrease with its base. */
  lemma {:induction false} PowMonotoneBase(b1: nat, b2: nat, e: nat)
    requires b1 <= b2
    ensures Pow(b1, e) <= Pow(b2, e)
  {
    if e > 0 {
      PowMonotoneBase(b1, b2, e - 1);
      MulMonotone(b1, b2, Pow(b1, e - 1), Pow(b2, e - 1));
    }
  }

  lemma MulMonotone(a: nat, b: nat, c: nat, d: nat)
    requires a <= b && c <= d
    ensures a * c <= b * d
  {
    assert a * c <= b * c;
    assert b * c <= b * d;
  }

  lemma PowSmall()
    ensures Pow(94, 4) == 78074896
  {
    assert Pow(94, 2) == 8836;
  }

  lemma PowLarge()
    ensures Pow(10, 19) == 10_000_000_000_000_000_000
  {
    var x := 10;
    assert Pow(x, 4) == 10000;
    assert Pow(x, 8) == 100000000 by { assert Pow(x, 8) == 10 * 10 * 10 * 10 * Pow(x, 4); }
    assert Pow(x, 12) == 1000000000000 by { assert Pow(x, 12) == 10 * 10 * 10 * 10 * Pow(x, 8); }
    assert Pow(x, 16) == 10000000000000000 by {
      assert Pow(x, 16) == 10 * 10 * 10 * 10 * Pow(x, 12);
    }
  }

  /** For a fixed charset size, a longer password never reads as a shorter
      crack time. */
  lemma EstimateCrackTimeMonotone(p: string, q: string)
    requires CharsetSize(p) == CharsetSize(q) && |p| <= |q|
    ensures NoLonger(EstimateCrackTime(p), EstimateCrackTime(q))
  {
    PowMonotone(CharsetSize(p), |p|, |q|);
    CrackTimeMonotone(Pow(CharsetSize(p), |p|), Pow(CharsetSize(q), |q|));
  }
}
