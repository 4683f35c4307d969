/** The seeded daily fortune: a seed made of the day of the year, the name's code
    units and the birth year, one step of a linear congruential generator, and the
    scores, colour, lucky numbers and message read off the resulting fraction;
    the daily and weekly advice bands; the weekly fortune built from seven days.

    The fraction is `r / 233280` for the integer `r` the generator returns, and
    every `Math.floor(random * k)` is computed exactly as `r * k / 233280`
    (Dafny's `/` by a positive divisor rounds down, as `Math.floor` does). A float
    `x % 100` of the fraction times `k` is `JsRem(r * k, 100 * 233280) / 233280`. */
module Luck {
  import opened JsCore
  import opened Calendar

  const Modulus: int := 233280
  const Multiplier: int := 9301
  const Increment: int := 49297

  // ---------------------------------------------------------------------- sums

  /** `s.reduce((acc, x) => acc + x, 0)`: the elements added from left to right. */
  function Sum(s: seq<int>): (r: int)
    ensures (forall i :: 0 <= i < |s| ==> s[i] >= 0) ==> r >= 0
  {
    if |s| == 0 then 0 else Sum(s[..|s| - 1]) + s[|s| - 1]
  }

  lemma {:induction false} SumAppend(s: seq<int>, t: seq<int>)
    ensures Sum(s + t) == Sum(s) + Sum(t)
    decreases |t|
  {
    if |t| == 0 {
      assert s + t == s;
    } else {
      var t' := t[..|t| - 1];
      assert (s + t)[..|s + t| - 1] == s + t';
      SumAppend(s, t');
    }
  }

  lemma {:induction false} SumBounds(s: seq<int>, lo: int, hi: int)
    requires forall i :: 0 <= i < |s| ==> lo <= s[i] <= hi
    ensures lo * |s| <= Sum(s) <= hi * |s|
  {
    if |s| > 0 {
      SumBounds(s[..|s| - 1], lo, hi);
      assert lo * |s| == lo * (|s| - 1) + lo && hi * |s| == hi * (|s| - 1) + hi;
    }
  }

  /** Adding up the same elements in another order gives the same total. */
  lemma {:induction false} SumPermutation(s: seq<int>, t: seq<int>)
    requires multiset(s) == multiset(t)
    ensures Sum(s) == Sum(t)
    decreases |s|
  {
    if |s| == 0 {
      assert |t| == |multiset(t)| == 0;
    } else {
      var x := s[|s| - 1];
      var s' := s[..|s| - 1];
      assert s == s' + [x];
      assert x in multiset(t);
      var k :| 0 <= k < |t| && t[k] == x;
      var t' := t[..k] + t[k + 1..];
      assert t == t[..k] + [x] + t[k + 1..];
      assert multiset(s') == multiset(t') by {
        assert multiset(s) == multiset(s') + multiset{x};
        assert multiset(t) == multiset(t') + multiset{x} by {
          assert t == t[..k] + [x] + t[k + 1..];
          assert t' == t[..k] + t[k + 1..];
        }
        assert multiset(s') == multiset(s) - multiset{x};
        assert multiset(t') == multiset(t) - multiset{x};
      }
      SumPermutation(s', t');
      SumAppend(s', [x]);
      SumAppend(t[..k] + [x], t[k + 1..]);
      SumAppend(t[..k], [x]);
      SumAppend(t[..k], t[k + 1..]);
      assert Sum([x]) == x by {
        assert [x][..0] == [];
      }
    }
  }

  /** Raising no element lowers no total. */
  lemma {:induction false} SumMonotone(s: seq<int>, t: seq<int>)
    requires |s| == |t|
    requires forall i :: 0 <= i < |s| ==> s[i] <= t[i]
    ensures Sum(s) <= Sum(t)
  {
    if |s| > 0 {
      SumMonotone(s[..|s| - 1], t[..|t| - 1]);
    }
  }

  lemma {:induction false} SumConstant(s: seq<int>, c: int)
    requires forall i :: 0 <= i < |s| ==> s[i] == c
    ensures Sum(s) == c * |s|
  {
    if |s| > 0 {
      SumConstant(s[..|s| - 1], c);
    }
  }

  // ---------------------------------------------------------------------- seed

  /** `name.split('').reduce((hash, char) => hash + char.charCodeAt(0), 0)`: the
      sum of the name's UTF-16 code units. */
  function NameHash(name: seq<CodeUnit>): (h: int)
    ensures 0 <= h <= 0xFFFF * |name|
  {
    SumBounds(name, 0, 0xFFFF);
    Sum(name)
  }

  /** The hash of two pieces joined is the sum of their hashes. */
  lemma NameHashAppend(a: seq<CodeUnit>, b: seq<CodeUnit>)
    ensures NameHash(a + b) == NameHash(a) + NameHash(b)
  {
    SumAppend(a, b);
  }

  /** Names made of the same code units in any order have the same hash. */
  lemma NameHashAnagram(a: seq<CodeUnit>, b: seq<CodeUnit>)
    requires multiset(a) == multiset(b)
    ensures NameHash(a) == NameHash(b)
  {
    SumPermutation(a, b);
  }

  /** `birthYear || 1990`: a missing (None) or zero birth year counts as 1990. */
  function BirthYearOrDefault(birthYear: Option<int>): (y: int)
    ensures birthYear.None? || birthYear.value == 0 ==> y == 1990
    ensures birthYear.Some? && birthYear.value != 0 ==> y == birthYear.value
  {
    if birthYear.None? || birthYear.value == 0 then 1990 else birthYear.value
  }

  /** `dayOfYear + nameHash + (birthYear || 1990)`. */
  function Seed(dayOfYear: int, name: seq<CodeUnit>, birthYear: Option<int>): (s: int)
    ensures s >= dayOfYear + BirthYearOrDefault(birthYear)
  {
    dayOfYear + NameHash(name) + BirthYearOrDefault(birthYear)
  }

  /** A day of the year is at least 1 and a hash is not negative, so the seed is at
      least the birth year (or 1990) plus one. */
  lemma SeedLowerBound(dt: Date, name: seq<CodeUnit>, birthYear: Option<int>)
    requires ValidDate(dt) && dt.year >= 100
    ensures Seed(DayOfYear(dt), name, birthYear) >= BirthYearOrDefault(birthYear) + 1
  {
  }

  // ---------------------------------------------------------------------- generator

  /** `(seed * 9301 + 49297) % 233280`, with JavaScript's truncating `%`: the
      fraction is this value divided by 233280. */
  function Lcg(seed: int): (r: int)
    ensures -Modulus < r < Modulus
    ensures seed >= -5 ==> 0 <= r < Modulus
    ensures seed <= -6 ==> r <= 0
  {
    JsRem(seed * Multiplier + Increment, Modulus)
  }

  /** The generator repeats after 233280 seeds. */
  lemma LcgPeriod(seed: int)
    requires seed >= -5
    ensures Lcg(seed + Modulus) == Lcg(seed)
  {
    var a := seed * Multiplier + Increment;
    assert (seed + Modulus) * Multiplier + Increment == a + Modulus * Multiplier;
    ModUnique(a + Modulus * Multiplier, Modulus, a / Modulus + Multiplier, a % Modulus);
  }

  /** Within one period the generator never repeats: two seeds with the same value
      are congruent modulo 233280 (9301 has the inverse 123901 modulo 233280). */
  lemma LcgInjective(s1: int, s2: int)
    requires s1 >= -5 && s2 >= -5
    requires Lcg(s1) == Lcg(s2)
    ensures s1 % Modulus == s2 % Modulus
  {
    var a1, a2 := s1 * Multiplier + Increment, s2 * Multiplier + Increment;
    var q := a1 / Modulus - a2 / Modulus;
    assert a1 == Modulus * (a1 / Modulus) + Lcg(s1);
    assert a2 == Modulus * (a2 / Modulus) + Lcg(s2);
    var d := s1 - s2;
    assert Multiplier * d == Modulus * q;
    assert 123901 * (Multiplier * d) == 123901 * (Modulus * q);
    assert 123901 * (Multiplier * d) == d + Modulus * (4940 * d);
    assert d == Modulus * (123901 * q - 4940 * d);
    var k := 123901 * q - 4940 * d;
    assert s1 == s2 + Modulus * k;
    ModUnique(s1, Modulus, s2 / Modulus + k, s2 % Modulus);
  }

  // ---------------------------------------------------------------------- scores

  datatype LuckScores = LuckScores(overall: int, love: int, money: int, health: int, work: int)

  /** `Math.floor(random * k)`. */
  function Scaled(r: int, k: int): int {
    r * k / Modulus
  }

  /** `Math.floor((random * k) % 100)` with the float remainder taking the sign of
      its left operand. */
  function ScaledRem100(r: int, k: int): int {
    JsRem(r * k, 100 * Modulus) / Modulus
  }

  /** For a fraction in [0, 1), `Math.floor(random * k)` lies in 0 .. k-1 and
      `Math.floor((random * k) % 100)` in 0 .. 99, and is the first reduced mod 100. */
  lemma ScaledBounds(r: int, k: int)
    requires 0 <= r < Modulus && k > 0
    ensures 0 <= Scaled(r, k) < k
    ensures 0 <= ScaledRem100(r, k) < 100
    ensures ScaledRem100(r, k) == Scaled(r, k) % 100
  {
    assert r * k < Modulus * k by {
      assert (Modulus - r) * k > 0 by { MulAtLeast(k, Modulus - r); }
    }
    var x := r * k;
    var q, m := x / (100 * Modulus), x % (100 * Modulus);
    assert x == (100 * Modulus) * q + m;
    var d, e := m / Modulus, m % Modulus;
    assert m == Modulus * d + e;
    assert x == Modulus * (100 * q + d) + e;
    ModUnique(x, Modulus, 100 * q + d, e);
    ModUnique(x / Modulus, 100, q, d) by {
      DivUnique(x, Modulus, 100 * q + d, e);
    }
  }

  /** The five scores of `luckScores`, from the generator value r. */
  function Scores(r: int): (s: LuckScores)
    ensures 0 <= r < Modulus ==>
      && InScoreRange(s.overall) && InScoreRange(s.love) && InScoreRange(s.money)
      && InScoreRange(s.health) && InScoreRange(s.work)
  {
    assert 0 <= r < Modulus ==>
      && 0 <= Scaled(r, 100) < 100 && 0 <= ScaledRem100(r, 123) < 100
      && 0 <= ScaledRem100(r, 456) < 100 && 0 <= ScaledRem100(r, 789) < 100
      && 0 <= ScaledRem100(r, 321) < 100 by {
      if 0 <= r < Modulus {
        ScaledBounds(r, 100);
        ScaledBounds(r, 123);
        ScaledBounds(r, 456);
        ScaledBounds(r, 789);
        ScaledBounds(r, 321);
      }
    }
    LuckScores(
      Scaled(r, 100) + 1,
      ScaledRem100(r, 123) + 1,
      ScaledRem100(r, 456) + 1,
      ScaledRem100(r, 789) + 1,
      ScaledRem100(r, 321) + 1)
  }

  predicate InScoreRange(x: int) {
    1 <= x <= 100
  }

  const LuckColors: seq<string> :=
    ["빨강", "파랑", "노랑", "초록", "보라", "주황", "분홍", "흰색", "검정", "금색"]

  const DailyMessages: seq<string> := [
    "오늘은 새로운 기회가 찾아올 날입니다.",
    "작은 친절이 큰 행운을 가져다 줄 것입니다.",
    "오늘 만나는 사람들과의 대화가 도움이 될 것입니다.",
    "계획했던 일을 실행에 옮기기 좋은 날입니다.",
    "주변 사람들의 조언에 귀를 기울여보세요.",
    "오늘은 휴식과 재충전이 필요한 날입니다.",
    "새로운 도전을 시작하기 좋은 시기입니다.",
    "가족이나 친구와 좋은 시간을 보낼 수 있을 것입니다."
  ]

  /** `Array.from({length: 3}, (_, i) => Math.floor((random * (i + 1) * 789) % 100) + 1)`. */
  function LuckyNumbers(r: int): (ns: seq<int>)
    ensures |ns| == 3
    ensures 0 <= r < Modulus ==> forall i :: 0 <= i < 3 ==> InScoreRange(ns[i])
  {
    assert 0 <= r < Modulus ==>
      && 0 <= ScaledRem100(r, 789) < 100 && 0 <= ScaledRem100(r, 2 * 789) < 100
      && 0 <= ScaledRem100(r, 3 * 789) < 100 by {
      if 0 <= r < Modulus {
        ScaledBounds(r, 789);
        ScaledBounds(r, 2 * 789);
        ScaledBounds(r, 3 * 789);
      }
    }
    [ScaledRem100(r, 789) + 1, ScaledRem100(r, 2 * 789) + 1, ScaledRem100(r, 3 * 789) + 1]
  }

  datatype DailyFortune = DailyFortune(
    scores: LuckScores,
    luckyColor: Option<string>,
    luckyNumbers: seq<int>,
    todayMessage: Option<string>,
    advice: string)

  /** Everything `generateDailyFortune` derives from the generator value r. */
  function FortuneOfRandom(r: int): (f: DailyFortune)
    ensures -Modulus < r < Modulus ==> (f.luckyColor.Some? <==> r >= 0) && (f.todayMessage.Some? <==> r >= 0)
    ensures f.advice == LuckAdvice(f.scores.overall)
  {
    var scores := Scores(r);
    DailyFortune(
      scores,
      Lookup(LuckColors, Scaled(r, |LuckColors|)),
      LuckyNumbers(r),
      Lookup(DailyMessages, Scaled(r, |DailyMessages|)),
      LuckAdvice(scores.overall))
  }

  /** For a generator value in [0, 233280) every score and lucky number is in
      1..100, and the colour and the message are defined and taken from their
      tables at positions 0..9 and 0..7. */
  lemma FortuneBounds(r: int)
    requires 0 <= r < Modulus
    ensures var f := FortuneOfRandom(r);
      && InScoreRange(f.scores.overall) && InScoreRange(f.scores.love)
      && InScoreRange(f.scores.money) && InScoreRange(f.scores.health)
      && InScoreRange(f.scores.work)
      && (forall i :: 0 <= i < 3 ==> InScoreRange(f.luckyNumbers[i]))
      && f.luckyColor == Some(LuckColors[Scaled(r, 10)]) && 0 <= Scaled(r, 10) < 10
      && f.todayMessage == Some(DailyMessages[Scaled(r, 8)]) && 0 <= Scaled(r, 8) < 8
  {
    ScaledBounds(r, 100);
    ScaledBounds(r, 123);
    ScaledBounds(r, 456);
    ScaledBounds(r, 789);
    ScaledBounds(r, 321);
    ScaledBounds(r, 2 * 789);
    ScaledBounds(r, 3 * 789);
    ScaledBounds(r, 10);
    ScaledBounds(r, 8);
  }

  /** `generateDailyFortune` for a date (its time of day does not change the day of
      the year). */
  function GenerateDailyFortune(name: seq<CodeUnit>, birthYear: Option<int>, dt: Date): (f: DailyFortune)
    requires ValidDate(dt) && dt.year >= 100
    ensures f.advice == LuckAdvice(f.scores.overall) && |f.luckyNumbers| == 3
  {
    FortuneOfRandom(Lcg(Seed(DayOfYear(dt), name, birthYear)))
  }

  /** Unless a birth year below -6 is given, every score and number is in 1..100
      and the colour and message are defined. */
  lemma DailyFortuneBounds(name: seq<CodeUnit>, birthYear: Option<int>, dt: Date)
    requires ValidDate(dt) && dt.year >= 100
    requires BirthYearOrDefault(birthYear) >= -6
    ensures var f := GenerateDailyFortune(name, birthYear, dt);
      && InScoreRange(f.scores.overall) && InScoreRange(f.scores.love)
      && InScoreRange(f.scores.money) && InScoreRange(f.scores.health)
      && InScoreRange(f.scores.work)
      && (forall i :: 0 <= i < 3 ==> InScoreRange(f.luckyNumbers[i]))
      && f.luckyColor.Some? && f.luckyColor.value in LuckColors
      && f.todayMessage.Some? && f.todayMessage.value in DailyMessages
  {
    var r := Lcg(Seed(DayOfYear(dt), name, birthYear));
    FortuneBounds(r);
  }

  /** The fortune depends on the name only through its code units, not their order. */
  lemma DailyFortuneOfAnagram(a: seq<CodeUnit>, b: seq<CodeUnit>, birthYear: Option<int>, dt: Date)
    requires ValidDate(dt) && dt.year >= 100
    requires multiset(a) == multiset(b)
    ensures GenerateDailyFortune(a, birthYear, dt) == GenerateDailyFortune(b, birthYear, dt)
  {
    NameHashAnagram(a, b);
  }

  /** Two different seeds less than 233280 apart give different generator values,
      hence different fractions. */
  lemma DistinctSeedsDistinctRandom(s1: int, s2: int)
    requires -5 <= s1 < s2 < s1 + Modulus
    ensures Lcg(s1) != Lcg(s2)
  {
    NotCongruent(s1, s2);
    if Lcg(s1) == Lcg(s2) {
      LcgInjective(s1, s2);
      assert false;
    }
  }

  /** Two different numbers less than 233280 apart have different remainders. */
  lemma NotCongruent(s1: int, s2: int)
    requires s1 < s2 < s1 + Modulus
    ensures s1 % Modulus != s2 % Modulus
  {
    var q, r := s1 / Modulus, s1 % Modulus;
    if r + (s2 - s1) < Modulus {
      ModUnique(s2, Modulus, q, r + (s2 - s1));
    } else {
      ModUnique(s2, Modulus, q + 1, r + (s2 - s1) - Modulus);
    }
  }

  /** On January 1, day 1 of the year, a birth year of -72 and the one-letter
      name "A" give the seed -6. */
  lemma NegativeSeedReachable()
    ensures Seed(1, [65], Some(-72)) == -6
  {
    var name: seq<CodeUnit> := [65];
    assert NameHash(name) == 65 by {
      assert name[..0] == [];
    }
  }

  /** From the seed -6 on the fraction is negative: for -6 the overall score is -2
      and the colour is undefined. */
  lemma NegativeSeedCounterexample()
    ensures Lcg(-6) == -6509
    ensures Scores(-6509).overall == -2
    ensures FortuneOfRandom(-6509).luckyColor == None
  {
    assert Lcg(-6) == -6509 by {
      assert -6 * Multiplier + Increment == -6509;
    }
    DivUnique(-6509 * 100, Modulus, -3, 48940);
    DivUnique(-6509 * 10, Modulus, -1, 168190);
  }

  // ---------------------------------------------------------------------- advice

  const LuckAdviceMessages: seq<string> := [
    "오늘은 모든 일이 순조롭게 풀릴 것입니다. 적극적으로 행동하세요!",
    "전반적으로 좋은 하루가 될 것입니다. 긍정적인 마음가짐을 유지하세요.",
    "평범한 하루가 될 것 같습니다. 작은 것에 감사하는 마음을 가져보세요.",
    "오늘은 조금 조심스럽게 행동하는 것이 좋겠습니다. 무리하지 마세요."
  ]

  /** Which of the four daily advice messages a score gets: 0 for 80 and above,
      1 for 60..79, 2 for 40..59, 3 below 40. */
  function LuckBand(score: int): (b: int)
    ensures 0 <= b < 4
  {
    if score >= 80 then 0 else if score >= 60 then 1 else if score >= 40 then 2 else 3
  }

  /** `getLuckAdvice(score)`. */
  function LuckAdvice(score: int): (a: string)
    ensures a in LuckAdviceMessages
  {
    LuckAdviceMessages[LuckBand(score)]
  }

  /** The daily advice, band by band, in both directions. */
  lemma LuckAdviceBands(score: int)
    ensures LuckAdvice(score) == LuckAdviceMessages[0] <==> score >= 80
    ensures LuckAdvice(score) == LuckAdviceMessages[1] <==> 60 <= score < 80
    ensures LuckAdvice(score) == LuckAdviceMessages[2] <==> 40 <= score < 60
    ensures LuckAdvice(score) == LuckAdviceMessages[3] <==> score < 40
  {
    AdviceMessagesDistinct();
  }

  /** A higher score never gets a more cautious band. */
  lemma LuckBandMonotone(a: int, b: int)
    requires a <= b
    ensures LuckBand(b) <= LuckBand(a)
  {
  }

  lemma AdviceMessagesDistinct()
    ensures Distinct(LuckAdviceMessages)
    ensures Distinct(WeeklyAdviceMessages)
  {
  }

  const WeeklyAdviceMessages: seq<string> := [
    "이번 주는 전반적으로 좋은 운세입니다. 새로운 도전을 시작해보세요!",
    "이번 주는 안정적인 운세입니다. 꾸준히 노력하면 좋은 결과가 있을 것입니다.",
    "이번 주는 신중하게 행동하는 것이 좋겠습니다. 휴식과 재충전의 시간으로 활용하세요."
  ]

  /** Which weekly message the mean `sum / 7` of the overall scores gets: 0 for a
      mean of 70 and above, 1 for 50 up to 70, 2 below. */
  function WeeklyBand(overalls: seq<int>): (b: int)
    ensures 0 <= b < 3
  {
    var avg := (Sum(overalls) as real) / 7.0;
    if avg >= 70.0 then 0 else if avg >= 50.0 then 1 else 2
  }

  /** `getWeeklyAdvice(weeklyFortunes)` for the overall scores of those fortunes. */
  function WeeklyAdvice(overalls: seq<int>): (a: string)
    ensures a in WeeklyAdviceMessages
  {
    WeeklyAdviceMessages[WeeklyBand(overalls)]
  }

  /** The mean is compared with 70 and 50 exactly: a total of 490 and of 350. */
  lemma WeeklyAdviceBands(overalls: seq<int>)
    ensures WeeklyAdvice(overalls) == WeeklyAdviceMessages[0] <==> Sum(overalls) >= 490
    ensures WeeklyAdvice(overalls) == WeeklyAdviceMessages[1] <==> 350 <= Sum(overalls) < 490
    ensures WeeklyAdvice(overalls) == WeeklyAdviceMessages[2] <==> Sum(overalls) < 350
  {
    AdviceMessagesDistinct();
  }

  /** A week of seven equal scores gets the first message exactly when that score
      is at least 70 (a week of 80s does). */
  lemma WeeklyAdviceOfEqualDays(overalls: seq<int>, c: int)
    requires |overalls| == 7
    requires forall i :: 0 <= i < 7 ==> overalls[i] == c
    ensures WeeklyBand(overalls) == 0 <==> c >= 70
    ensures WeeklyBand(overalls) == 1 <==> 50 <= c < 70
  {
    SumConstant(overalls, c);
  }

  /** Raising any day's score never gives a more cautious weekly message. */
  lemma WeeklyBandMonotone(a: seq<int>, b: seq<int>)
    requires |a| == |b|
    requires forall i :: 0 <= i < |a| ==> a[i] <= b[i]
    ensures WeeklyBand(b) <= WeeklyBand(a)
  {
    SumMonotone(a, b);
  }

  // ---------------------------------------------------------------------- week

  const WeekDays: seq<string> := ["일", "월", "화", "수", "목", "금", "토"]

  datatype WeekEntry = WeekEntry(day: string, date: int, overall: int, message: Option<string>)
  datatype WeeklyFortune = WeeklyFortune(entries: seq<WeekEntry>, weeklyAdvice: string)

  predicate WeekOfDates(days: seq<Date>) {
    |days| == 7 && forall i :: 0 <= i < 7 ==> ValidDate(days[i]) && days[i].year >= 100
  }

  /** The overall scores of the seven entries. */
  function Overalls(entries: seq<WeekEntry>): (s: seq<int>)
    ensures |s| == |entries|
    ensures forall i :: 0 <= i < |s| ==> s[i] == entries[i].overall
  {
    seq(|entries|, i requires 0 <= i < |entries| => entries[i].overall)
  }

  /** `generateWeeklyFortune` for the seven dates of the week, Sunday first. */
  function GenerateWeeklyFortune(name: seq<CodeUnit>, birthYear: Option<int>, days: seq<Date>): (w: WeeklyFortune)
    requires WeekOfDates(days)
    ensures |w.entries| == 7
    ensures forall i :: 0 <= i < 7 ==> w.entries[i].day == WeekDays[i] && w.entries[i].date == days[i].day
    ensures forall i :: 0 <= i < 7 ==>
      w.entries[i].message == GenerateDailyFortune(name, birthYear, days[i]).todayMessage
    ensures w.weeklyAdvice == WeeklyAdvice(Overalls(w.entries))
    ensures w.weeklyAdvice in WeeklyAdviceMessages
  {
    var entries := seq(7, i requires 0 <= i < 7 =>
      var f := GenerateDailyFortune(name, birthYear, days[i]);
      WeekEntry(WeekDays[i], days[i].day, f.scores.overall, f.todayMessage));
    WeeklyFortune(entries, WeeklyAdvice(Overalls(entries)))
  }

  /** Each weekday's entry carries that day's overall score and message, and the
      advice is the first message exactly when those seven scores total 490 or
      more (a mean of at least 70). */
  lemma WeeklyFortuneOfDays(name: seq<CodeUnit>, birthYear: Option<int>, days: seq<Date>)
    requires WeekOfDates(days)
    ensures var w := GenerateWeeklyFortune(name, birthYear, days);
      && |w.entries| == 7
      && (forall i :: 0 <= i < 7 ==>
            && w.entries[i].overall == GenerateDailyFortune(name, birthYear, days[i]).scores.overall
            && w.entries[i].message == GenerateDailyFortune(name, birthYear, days[i]).todayMessage)
      && (w.weeklyAdvice == WeeklyAdviceMessages[0] <==> Sum(Overalls(w.entries)) >= 490)
      && (w.weeklyAdvice == WeeklyAdviceMessages[1] <==> 350 <= Sum(Overalls(w.entries)) < 490)
      && (w.weeklyAdvice == WeeklyAdviceMessages[2] <==> Sum(Overalls(w.entries)) < 350)
  {
    WeeklyAdviceBands(Overalls(GenerateWeeklyFortune(name, birthYear, days).entries));
  }
}
