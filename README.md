# korean-fortune-app: a verified model of the fortune server's core

This project models the computational core of the Express server `api/server.js`.
That server is a Korean fortune-telling service. The core has five parts:

- **Sexagenary calculator (`sajuUtils`, module `Saju`).** A birth year, month, day and
  hour become four pillars. Each pillar is a heavenly stem out of 10 and an earthly
  branch out of 12; the year pillar also carries the zodiac animal. The module also
  covers the `hour || 12` default of the `/api/saju` route, the stem-to-element
  lookup, and the fallback from the external fortune text to the locally composed one.
- **Dates (module `Calendar`).** JavaScript's `new Date(y, m - 1, d)` is modelled with
  proleptic-Gregorian day numbers, including:
  - two-digit years read as 19xx;
  - month and day overflow;
  - the valid-time range.

  The module also gives the day pillar's count of days since 1900-01-01 and the day
  of the year used by the seeded fortunes.
- **Seeded daily fortune (module `Luck`).** The seed is the day of the year plus the
  sum of the name's UTF-16 code units plus `birthYear || 1990`. One step of the
  generator `(seed * 9301 + 49297) % 233280` then yields the following, all computed
  exactly on the integer generator value:
  - five scores;
  - a lucky colour;
  - three lucky numbers;
  - a message;
  - the daily advice band.

  The module also covers the weekly fortune of seven days and the weekly advice band
  for the mean of their scores.
- **Zodiac ranking (module `ZodiacRanking`).** Each of the twelve animals gets a seed
  `dayOfYear + index * 123` and a score. An in-place stable sort on an array then
  orders them by descending score, and ranks 1..12 are assigned in the sorted order.
- **Name reading (module `NameFortune`).** A name's meaning, fortune and career
  phrases are picked by `length % 5` and by `(first + last code unit) % 5`.

JavaScript semantics that the arithmetic depends on are in module `JsCore`:

- the truncating `%`;
- `undefined` from an out-of-range array index, modelled as `None`;
- `indexOf`;
- strings as sequences of UTF-16 code units.

Two consequences of the code's formulas are worth spelling out:

- **The year 2024.** (2024 - 4) mod 10 is 0 and (2024 - 4) mod 12 is 4, so 2024 is
  갑진, the year of the dragon (`Saju.YearExamples`).
- **A zero birth year.** `birthYear || 1990` turns a birth year of 0 into 1990, not
  only a missing one (`Luck.BirthYearOrDefault`).

## Model

| member | source | states |
|---|---|---|
| JsCore.JsRem | api/server.js:39-40 | JavaScript `%` keeps the dividend's sign: the result lies strictly between -n and n, is the mathematical remainder for a non-negative dividend and is never positive for a negative one, and it differs from the dividend by a multiple of n |
| JsCore.Lookup | api/server.js:42-44 | reading a table gives a value exactly when the index is in range, and that value is the table's entry |
| JsCore.IndexOf | api/server.js:75 | `indexOf` returns -1 exactly when no entry equals the value, otherwise the first position holding it |
| JsCore.IndexOfLookup | api/server.js:75 | in a table without repetitions `indexOf` of the k-th entry is k |
| JsCore.JsRemIndex | api/server.js:39-40 | a JavaScript remainder is a usable index exactly when the dividend is non-negative or a multiple of the modulus, and it is then the mathematical remainder |
| Calendar.DaysInMonth | api/server.js:62 | months have 28..31 days, and 29 exactly for February of a leap year |
| Calendar.YearLength | api/server.js:62-63 | the day numbers of consecutive January firsts differ by 366 exactly in a leap year, by 365 otherwise |
| Calendar.NextDayNumber | api/server.js:62-63 | the day after a valid date is valid and has the next day number, so day numbers count days |
| Calendar.KnownDayNumbers | api/server.js:63 | 1970-01-01 is day 0, 1900-01-01 is day -25567 and 2000-03-01 is day 11017 |
| Calendar.JsYear | api/server.js:62 | `new Date` reads the years 0..99 as 1900..1999 and every other year as itself |
| Calendar.LocalDate | api/server.js:62 | `new Date(y, monthIndex, d)` is a day number within the ±1e8-day range a Date can hold, or Invalid Date (None); for a month index 0..11 it is day d of month monthIndex + 1 of the year as `new Date` reads it |
| Calendar.DaysSince1900 | api/server.js:63 | `(date - new Date(1900, 0, 1)) / 86400000` of a valid date from 1900 to 275000 is defined, non-negative and the difference of the two day numbers |
| Calendar.LocalDateOfValidDate | api/server.js:62 | `new Date(year, month - 1, day)` of a valid date from 1900 to 275000 is that date's day number; a two-digit year gives the date in 19xx |
| Calendar.DayNumberRange | api/server.js:62-63 | valid dates from 1900 to 275000 lie between the 1900 epoch and the largest time a Date can hold |
| Calendar.DayOfYear | api/server.js:450 | the day of the year of a valid date from year 100 on is in 1..366 for a leap year and 1..365 otherwise |
| Calendar.DayOfYearSteps | api/server.js:450 | for dates from year 100 on, January 1 is day 1; the day of the year rises by one each day and starts again at 1 when the year changes |
| Saju.GetYearGanJi | api/server.js:38-46 | `getYearGanJi`: every defined stem, branch and animal is an entry of its table, and the animal is defined exactly when the branch is |
| Saju.YearPillar | api/server.js:38-46 | the year stem and branch are defined exactly from year 4 on or when year - 4 is a multiple of 10 (stem) or 12 (branch), and are then the (year - 4) mod 10 stem and (year - 4) mod 12 branch |
| Saju.ZodiacAgreesWithBranch | api/server.js:40-44 | the zodiac animal is the k-th exactly when the year branch is the k-th, and one is undefined exactly when the other is |
| Saju.YearCycle | api/server.js:38-46 | from year 4 on, the year pillar repeats every 60 years |
| Saju.YearExamples | api/server.js:38-46 | 1990 is 경오 (horse) and 2024 is 갑진 (dragon) |
| Saju.GetMonthGanJi | api/server.js:49-58 | `getMonthGanJi`: every defined stem and branch is an entry of its table |
| Saju.MonthPillar | api/server.js:49-58 | for year 4 on and months 1..12 the month stem is the (2((year - 4) mod 5) + month - 1) mod 10 stem and the branch the (month + 1) mod 12 branch, both defined |
| Saju.MonthStemIndexFormula | api/server.js:50-52 | from year 4 on and for months from 1 on, the nested truncating remainders of the month stem index reduce to (2((year - 4) mod 5) + month - 1) mod 10 |
| Saju.MonthBranchDefined | api/server.js:53-56 | the month branch is defined exactly when month + 1 is non-negative or a multiple of 12 |
| Saju.MonthPillarsRepeatEveryFiveYears | api/server.js:50-52 | years from 4 on that are congruent modulo 5 have the same month pillars |
| Saju.MonthStemsAdvance | api/server.js:52 | from year 4 on, within a year each month's stem index is the previous month's plus one, modulo 10 |
| Saju.GetDayGanJi | api/server.js:61-70 | `getDayGanJi`: every defined stem and branch is an entry of its table, and neither is defined when `new Date` gives Invalid Date |
| Saju.DayPillarOfValidDate | api/server.js:61-70 | for a valid date from 1900 to 275000 the day count (days since 1900-01-01, plus one) is positive and the day pillar is the count mod 10 stem and mod 12 branch |
| Saju.DayCountNext | api/server.js:63-65 | the next day's count is one more |
| Saju.ConsecutiveDays | api/server.js:61-70 | for dates from 1900 to 275000, from one day to the next both the day stem and the day branch advance by one, cyclically |
| Saju.DayPillarTwoDigitYear | api/server.js:62 | the day pillar of a year 0..99 is that of year 1900 + year |
| Saju.DayPillarBeforeEpoch | api/server.js:61-70 | for a valid date from year 100 up to the end of 1899 the count is not positive, the stem exists exactly when the count is a multiple of 10 (JavaScript's -0) and the branch exactly when it is a multiple of 12 |
| Saju.DayPillarBefore1900 | api/server.js:61-70 | 1899-12-30 (count -1) has no pillar, 1899-12-31 (count 0) is 갑자, and 1899-12-21 (count -10) has the stem 갑 and no branch |
| Saju.GetTimeGanJi | api/server.js:73-81 | `getTimeGanJi`: every defined stem and branch is an entry of its table, and the branch is defined exactly for hours 0..23 |
| Saju.HourStemIndex | api/server.js:74-76 | for hours 0..23, with the k-th day stem the hour stem index is (2k + hour / 2) mod 10 |
| Saju.HourPillar | api/server.js:73-81 | for hours 0..23 the branch is the (hour / 2)-th, in 0..11, and the stem is the (2k + hour / 2) mod 10 stem |
| Saju.HourPillarWithoutDayStem | api/server.js:75-78 | for hours 0..23, with an undefined day stem `indexOf` gives -1, so the stem index is hour / 2 - 2 and the stem is defined exactly from 04:00 on |
| Saju.EffectiveHour | api/server.js:247 | `hour \|\| 12` is 12 exactly for a missing hour, hour 0 and hour 12, and any other hour is kept |
| Saju.ComputeSaju | api/server.js:243-248 | the chart's month, day and hour pillars hold only table entries, and the hour branch is defined exactly when the defaulted hour is in 0..23 |
| Saju.MissingHourIsNoon | api/server.js:247 | a chart without an hour, or with hour 0, equals the chart at 12:00, whose hour branch is 오 |
| Saju.HourPillarInChart | api/server.js:243-248 | the chart's hour pillar is computed from the chart's own day stem and the defaulted hour |
| Saju.ChartIsComplete | api/server.js:243-248 | for a valid birth date from 1900 to 275000 and an hour 0..23 or none, all four pillars and the zodiac animal are defined |
| Saju.ElementOf | api/server.js:165-171 | `getElementFromGanJi` always returns one of the five elements |
| Saju.ElementOfStem | api/server.js:165-171 | stems map to elements in pairs: the k-th stem's element is the (k / 2)-th of 목 화 토 금 수 |
| Saju.ElementDefault | api/server.js:170 | an undefined stem or any string that is not a stem gets 토 |
| Saju.GenerateBasicFortune | api/server.js:128-130 | the local fortune carries the chart, name and gender, the element of the year stem and the element of the month stem, both among the five |
| Saju.GetAiFortune | api/server.js:118-124 | the result is the local fortune exactly when the provider call failed or gave no or empty text; otherwise the result is exactly the provider's non-empty text |
| Luck.Sum | api/server.js:451 | the left-to-right total of non-negative numbers is non-negative |
| Luck.NameHash | api/server.js:451 | the name hash is between 0 and 65535 times the name's length |
| Luck.NameHashAppend | api/server.js:451 | the hash of two joined pieces is the sum of their hashes |
| Luck.NameHashAnagram | api/server.js:451 | names made of the same code units in any order have the same hash |
| Luck.BirthYearOrDefault | api/server.js:452 | a missing or zero birth year counts as 1990; any other is kept |
| Luck.Seed | api/server.js:452 | the seed is at least the day of the year plus the defaulted birth year, since the name hash is not negative |
| Luck.SeedLowerBound | api/server.js:450-452 | for dates from year 100 on, the seed is at least the (defaulted) birth year plus one |
| Luck.Lcg | api/server.js:455 | the generator value lies strictly between -233280 and 233280, is in [0, 233280) for every seed from -5 on and is never positive below |
| Luck.LcgPeriod | api/server.js:455 | for seeds from -5 on, the generator value repeats when the seed grows by 233280 |
| Luck.LcgInjective | api/server.js:455 | for seeds from -5 on, equal generator values come only from seeds congruent modulo 233280 |
| Luck.DistinctSeedsDistinctRandom | api/server.js:455 | for seeds from -5 on, distinct seeds less than 233280 apart give different fractions |
| Luck.ScaledBounds | api/server.js:457-463 | for a fraction in [0, 1), `floor(random * k)` is in 0..k-1 and `floor((random * k) % 100)` is in 0..99 and equals the former mod 100 |
| Luck.Scores | api/server.js:457-463 | for a generator value in [0, 233280) the five scores are in 1..100 |
| Luck.LuckyNumbers | api/server.js:468-470 | there are three lucky numbers, each in 1..100 for a generator value in [0, 233280) |
| Luck.FortuneOfRandom | api/server.js:457-510 | for a generator value in (-233280, 233280) the colour and the message are defined exactly when the value is not negative; the advice is that of the overall score |
| Luck.GenerateDailyFortune | api/server.js:449-513 | the daily fortune's advice is the band of its own overall score, and it has three lucky numbers |
| Luck.FortuneBounds | api/server.js:457-483 | for a generator value in [0, 233280) all five scores and the three lucky numbers are in 1..100, the colour is the `floor(10 r / 233280)`-th of ten and the message the `floor(8 r / 233280)`-th of eight |
| Luck.DailyFortuneBounds | api/server.js:449-483 | unless a birth year below -6 is given, every score and lucky number is in 1..100 and the colour and message are defined entries of their tables |
| Luck.DailyFortuneOfAnagram | api/server.js:451-455 | for dates from year 100 on, the daily fortune depends on the name only through its multiset of code units |
| Luck.NegativeSeedReachable | api/server.js:450-452 | on January 1 the name "A" with birth year -72 gives the seed -6 |
| Luck.NegativeSeedCounterexample | api/server.js:455-466 | for the seed -6 the fraction is negative, the overall score is -2 and the colour is undefined |
| Luck.LuckAdvice | api/server.js:562-567 | `getLuckAdvice` always returns one of its four messages |
| Luck.LuckBand | api/server.js:562-567 | the daily advice is one of four bands |
| Luck.LuckAdviceBands | api/server.js:562-567 | the daily advice is the first message exactly for scores of 80 and above, the second for 60..79, the third for 40..59 and the fourth below 40 |
| Luck.LuckBandMonotone | api/server.js:562-567 | a higher score never gets a more cautious daily band |
| Luck.WeeklyAdvice | api/server.js:569-575 | `getWeeklyAdvice` always returns one of its three messages |
| Luck.WeeklyBand | api/server.js:569-575 | the weekly advice is one of three bands |
| Luck.WeeklyAdviceBands | api/server.js:569-575 | comparing the mean (total / 7) with 70 and 50 is comparing the total with 490 and 350: first message exactly at 490 and above, second for 350..489, third below |
| Luck.WeeklyAdviceOfEqualDays | api/server.js:569-575 | seven equal scores give the first weekly message exactly from 70 on and the second exactly for 50..69 (a week of 80s gets the first) |
| Luck.WeeklyBandMonotone | api/server.js:569-575 | raising any day's score never gives a more cautious weekly message |
| Luck.GenerateWeeklyFortune | api/server.js:516-540 | the week has seven entries, the i-th labelled with the i-th weekday (Sunday first) and that date's day of the month, each carrying that date's daily message, and the advice is `getWeeklyAdvice` of the seven overall scores |
| Luck.WeeklyFortuneOfDays | api/server.js:516-540 | the week has seven entries, each carrying that day's overall daily score and message, and the advice is the first message exactly when those scores total at least 490, the second exactly for totals 350..489 and the third exactly below 350 |
| ZodiacRanking.ZodiacDailyMessage | api/server.js:577-594 | a name outside the twelve animals gets the generic greeting, and an animal gets one of the upbeat or cautious messages |
| ZodiacRanking.ZodiacMessageBands | api/server.js:577-594 | each animal gets its upbeat message exactly when its score is at least 70 and its cautious one exactly below 70 |
| ZodiacRanking.ZodiacScore | api/server.js:548-550 | an animal's score is in 1..100 whenever its seed `dayOfYear + k * 123` is at least -5 |
| ZodiacRanking.ZodiacScoreBounds | api/server.js:548-550 | from day 1 of the year on every animal's score is in 1..100 |
| ZodiacRanking.ZodiacEntries | api/server.js:547-557 | the unsorted list has twelve entries, entry k naming the k-th animal with the score `ZodiacScore(dayOfYear, k)` and rank 0 |
| ZodiacRanking.ZodiacEntryOf | api/server.js:547-557 | entry k is the k-th animal with a score in 1..100 and its upbeat message exactly when that score is at least 70 |
| ZodiacRanking.SortByScore | api/server.js:558 | the in-place sort leaves a permutation of its input ordered by non-increasing score, with equal scores in input order |
| ZodiacRanking.Insert | api/server.js:558 | one insertion step extends the ordered prefix by one entry, keeps the rest of the array and permutes the entries |
| ZodiacRanking.AssignRanks | api/server.js:559 | the k-th entry gets rank k + 1 and keeps everything else |
| ZodiacRanking.RankEntries | api/server.js:558-559 | sorting and ranking the twelve table-ordered entries gives each of them once, by non-increasing score, ties in table order, ranked 1..12 in output order |
| ZodiacRanking.ZodiacDailyFortune | api/server.js:543-560 | the result holds the twelve day's entries, each once, by non-increasing score, ties in table order, ranked 1..12 in output order |
| ZodiacRanking.OrderedUnique | api/server.js:558 | two orderings of the same entries that both satisfy the sort's order are equal, so the ranking is fully determined |
| NameFortune.NameMeaning | api/server.js:334-343 | `getNameMeaning` always returns one of the five meanings |
| NameFortune.NameCareer | api/server.js:356-365 | `getNameCareer` always returns one of the five careers |
| NameFortune.NameFortune | api/server.js:345-354 | the fortune is defined exactly for a non-empty name (the empty name reads `charCodeAt(0)` as NaN) |
| NameFortune.MeaningAndCareerIndex | api/server.js:334-365 | a name gets the k-th meaning exactly when its length is k modulo 5, and likewise the k-th career |
| NameFortune.MeaningByLength | api/server.js:334-365 | names whose lengths agree modulo 5 get the same meaning and career |
| NameFortune.FortuneIndex | api/server.js:353 | a non-empty name gets the k-th fortune exactly when (first + last code unit) mod 5 is k, always in 0..4 |
| NameFortune.FortuneOfReverse | api/server.js:353 | a name read backwards gets the same fortune |
| NameFortune.FortuneIgnoresMiddle | api/server.js:353 | names with the same first and last code units get the same fortune |
| NameFortune.FortuneOfOneUnit | api/server.js:353 | a one-unit name counts its code unit twice |

## Left out

- HTTP plumbing is framework glue and is not modelled (api/server.js:1-21, 231-446, 596-609). This covers:
  - the Express setup, routes and CORS;
  - JSON parsing;
  - the 400/500 responses, including the `!year \|\| !month \|\| !day` guard, which rejects zeros before the calculator runs;
  - logging, static files and `listen`.
- The call to the external text-generation service is network I/O. Its outcome is a parameter (`Saju.ProviderReply`); the prompt text and request headers are not modelled.
- Narrative templates do no computation. Their phrases are opaque, and only the table index each rule picks is modelled. This covers:
  - the text of `generateBasicFortune`;
  - `getPersonalityByZodiac`, `getFortuneByElement`, `getCareerFortune`, `getLoveFortune`, `getWealthFortune`, `getHealthFortune` and `getAdvice`;
  - the text of `analyzeNameSaju`, and its record fields `nameLength`, `firstChar` and `lastChar`;
  - `getNameRelationship` and `getNameAdvice`;
  - the `detailedFortune` text;
  - the `toISOString` date strings.
- "Today" (`new Date()`) is a clock read. The date is a parameter instead.
- Time zones are not modelled: every date is taken at midnight UTC, with no daylight-saving or historical offsets.
- The time of day inside a `Date` is not modelled; it does not change the floor of the day-of-year division.
- Luck.GenerateWeeklyFortune: the week-start `setDate` arithmetic (api/server.js:517-523) is not modelled; the function takes the seven dates of the week.
- Calendar.DayOfYear: it is stated for years from 100 on. For years 0..99, `new Date(y, 0, 0)` would fall in 19xx.
- Floating point is replaced by exact arithmetic on the integer generator value r. Where the exact product r * k / 233280 is an integer, the double-precision product can fall just below it, giving a value one lower. One such case is r = 126360 with k = 456, whose exact product is 247. IEEE rounding is not modelled.
- Luck.DailyFortuneBounds: the model's integers are unbounded, but JavaScript numbers are doubles, exact only below 2^53. The product `seed * 9301` is therefore inexact once the seed exceeds about 9.7e11 in magnitude, and it overflows to Infinity for huge birth years such as 1e308. The result is then NaN scores and an undefined colour. Birth years (and seeds) beyond about ±9.7e11 are not modelled.
- Inputs are integers and code-unit strings. Non-numeric JSON values, such as a birth year sent as a string (which the `+` at api/server.js:452 would concatenate), are not modelled.
- A stem or animal name that is an `Object.prototype` key, such as `constructor`, is not handled. The server only passes names from its own tables or `undefined`, and any other string is given the default.
- ZodiacRanking.SortByScore: it is stated for input whose entries are numbered 0..n-1 in array order by `place`, which is how `ZodiacDailyFortune` calls it. A sort with any other comparator is not modelled.
- Saju.ChartIsComplete, Saju.DayPillarOfValidDate and Calendar.LocalDateOfValidDate: they are stated for years up to 275000. Near the ±8.64e15 ms limit, `new Date` becomes Invalid Date, which `Calendar.LocalDate` models as None.
- The `minute \|\| 0` default in the `/api/saju` response (api/server.js:260) is not modelled, because no computation uses it.
