/** The sexagenary ("four pillars") calculator `sajuUtils`, the stem-to-element
    lookup, the chart the `/api/saju` route assembles, and the fallback from the
    external fortune text to the locally composed one.

    A pillar is a heavenly stem (gan, one of 10) and an earthly branch (ji, one of
    12). Each is read from its table with an index computed by JavaScript's `%`,
    so a negative index yields `undefined` (None) exactly as in the server. */
module Saju {
  import opened JsCore
  import opened Calendar

  const HeavenlyStems: seq<string> := ["갑", "을", "병", "정", "무", "기", "경", "신", "임", "계"]
  const EarthlyBranches: seq<string> := ["자", "축", "인", "묘", "진", "사", "오", "미", "신", "유", "술", "해"]
  const ZodiacAnimals: seq<string> := ["쥐", "소", "호랑이", "토끼", "용", "뱀", "말", "양", "원숭이", "닭", "개", "돼지"]
  const Elements: seq<string> := ["목", "화", "토", "금", "수"]

  /** The year pillar carries the zodiac animal as well. */
  datatype YearGanJi = YearGanJi(gan: Option<string>, ji: Option<string>, zodiac: Option<string>)
  datatype GanJi = GanJi(gan: Option<string>, ji: Option<string>)

  /** Every defined part of a pillar is an entry of its table. */
  predicate InTables(g: GanJi) {
    (g.gan.Some? ==> g.gan.value in HeavenlyStems) && (g.ji.Some? ==> g.ji.value in EarthlyBranches)
  }

  lemma StemsDistinct()
    ensures |HeavenlyStems| == 10 && Distinct(HeavenlyStems)
  {
  }

  lemma BranchesDistinct()
    ensures |EarthlyBranches| == 12 && Distinct(EarthlyBranches)
  {
  }

  lemma AnimalsDistinct()
    ensures |ZodiacAnimals| == 12 && Distinct(ZodiacAnimals)
  {
  }

  // ---------------------------------------------------------------- year pillar

  function GetYearGanJi(year: int): (r: YearGanJi)
    ensures r.gan.Some? ==> r.gan.value in HeavenlyStems
    ensures r.ji.Some? ==> r.ji.value in EarthlyBranches
    ensures r.zodiac.Some? ==> r.zodiac.value in ZodiacAnimals
    ensures r.ji.Some? <==> r.zodiac.Some?
  {
    var ganIndex := JsRem(year - 4, 10);
    var jiIndex := JsRem(year - 4, 12);
    YearGanJi(Lookup(HeavenlyStems, ganIndex), Lookup(EarthlyBranches, jiIndex),
              Lookup(ZodiacAnimals, jiIndex))
  }

  /** From year 4 on the year pillar is the (year - 4)-th stem and branch. Before
      that a stem or branch exists only where year - 4 is a multiple of the table
      length (JavaScript's `-0`); otherwise it is undefined. */
  lemma YearPillar(year: int)
    ensures GetYearGanJi(year).gan.Some? <==> year >= 4 || (year - 4) % 10 == 0
    ensures GetYearGanJi(year).ji.Some? <==> year >= 4 || (year - 4) % 12 == 0
    ensures GetYearGanJi(year).gan.Some? ==> GetYearGanJi(year).gan == Some(HeavenlyStems[(year - 4) % 10])
    ensures GetYearGanJi(year).ji.Some? ==> GetYearGanJi(year).ji == Some(EarthlyBranches[(year - 4) % 12])
  {
    JsRemIndex(year - 4, 10);
    JsRemIndex(year - 4, 12);
  }

  /** The zodiac animal is always the one that goes with the year's branch: the
      branch is the k-th exactly when the animal is the k-th, and one is undefined
      exactly when the other is. */
  lemma ZodiacAgreesWithBranch(year: int, k: int)
    requires 0 <= k < 12
    ensures GetYearGanJi(year).ji == Some(EarthlyBranches[k])
        <==> GetYearGanJi(year).zodiac == Some(ZodiacAnimals[k])
    ensures GetYearGanJi(year).ji.None? <==> GetYearGanJi(year).zodiac.None?
  {
    BranchesDistinct();
    AnimalsDistinct();
    var j := JsRem(year - 4, 12);
    if 0 <= j < 12 && j != k {
      assert EarthlyBranches[j] != EarthlyBranches[k] && ZodiacAnimals[j] != ZodiacAnimals[k];
    }
  }

  /** The year pillar repeats every 60 years (the sexagenary cycle). */
  lemma YearCycle(year: int)
    requires year >= 4
    ensures GetYearGanJi(year + 60) == GetYearGanJi(year)
  {
    ModUnique(year + 56, 10, (year - 4) / 10 + 6, (year - 4) % 10);
    ModUnique(year + 56, 12, (year - 4) / 12 + 5, (year - 4) % 12);
    assert JsRem(year + 56, 10) == JsRem(year - 4, 10);
    assert JsRem(year + 56, 12) == JsRem(year - 4, 12);
  }

  /** Worked examples: 1990 is 경오 (horse) and 2024 is 갑진 (dragon). */
  lemma YearExamples()
    ensures GetYearGanJi(1990) == YearGanJi(Some("경"), Some("오"), Some("말"))
    ensures GetYearGanJi(2024) == YearGanJi(Some("갑"), Some("진"), Some("용"))
  {
  }

  // --------------------------------------------------------------- month pillar

  /** Index of the month stem: `((yearGan % 5) * 2 + month - 1) % 10`. */
  function MonthStemIndex(year: int, month: int): int {
    var yearGan := JsRem(year - 4, 10);
    var monthGanBase := JsRem(yearGan, 5) * 2;
    JsRem(monthGanBase + month - 1, 10)
  }

  function GetMonthGanJi(year: int, month: int): (r: GanJi)
    ensures InTables(r)
  {
    GanJi(Lookup(HeavenlyStems, MonthStemIndex(year, month)), Lookup(EarthlyBranches, JsRem(month + 1, 12)))
  }

  /** For year 4 on and a month 1..12, the month stem counts on from twice the
      year's position in the five-year stem cycle, and the branch is month + 1
      taken round the twelve branches (month 1 is 인, month 11 is 자). */
  lemma MonthPillar(year: int, month: int)
    requires year >= 4 && 1 <= month <= 12
    ensures GetMonthGanJi(year, month)
         == GanJi(Some(HeavenlyStems[(2 * ((year - 4) % 5) + month - 1) % 10]),
                  Some(EarthlyBranches[(month + 1) % 12]))
  {
    MonthStemIndexFormula(year, month);
  }

  lemma MonthStemIndexFormula(year: int, month: int)
    requires year >= 4 && month >= 1
    ensures MonthStemIndex(year, month) == (2 * ((year - 4) % 5) + month - 1) % 10
  {
    var yg := JsRem(year - 4, 10);
    assert yg == (year - 4) % 10;
    assert JsRem(yg, 5) == (year - 4) % 5 by {
      ModOfMod(year - 4, 5, 2);
    }
  }

  /** The month branch is undefined exactly for the months whose `month + 1` is a
      negative non-multiple of 12. */
  lemma MonthBranchDefined(year: int, month: int)
    ensures GetMonthGanJi(year, month).ji.Some? <==> month >= -1 || (month + 1) % 12 == 0
  {
    JsRemIndex(month + 1, 12);
  }

  /** Years whose stems agree modulo 5 have the same month pillars. */
  lemma MonthPillarsRepeatEveryFiveYears(y1: int, y2: int, month: int)
    requires y1 >= 4 && y2 >= 4
    requires (y1 - y2) % 5 == 0
    ensures GetMonthGanJi(y1, month) == GetMonthGanJi(y2, month)
  {
    assert JsRem(JsRem(y1 - 4, 10), 5) == (y1 - 4) % 5 by {
      ModOfMod(y1 - 4, 5, 2);
    }
    assert JsRem(JsRem(y2 - 4, 10), 5) == (y2 - 4) % 5 by {
      ModOfMod(y2 - 4, 5, 2);
    }
    assert (y1 - 4) % 5 == (y2 - 4) % 5 by {
      var q := (y1 - y2) / 5;
      assert y1 - 4 == (y2 - 4) + 5 * q;
      ModUnique(y1 - 4, 5, (y2 - 4) / 5 + q, (y2 - 4) % 5);
    }
    assert MonthStemIndex(y1, month) == MonthStemIndex(y2, month);
  }

  /** Within a year, each month's stem is the next one after the previous month's. */
  lemma MonthStemsAdvance(year: int, month: int)
    requires year >= 4 && 1 <= month < 12
    ensures 0 <= MonthStemIndex(year, month) < 10
    ensures MonthStemIndex(year, month + 1) == (MonthStemIndex(year, month) + 1) % 10
  {
    MonthStemIndexFormula(year, month);
    MonthStemIndexFormula(year, month + 1);
    ModSucc(2 * ((year - 4) % 5) + month - 1, 10);
  }

  // ----------------------------------------------------------------- day pillar

  /** The day pillar counts days from 1900-01-01 (which gets index 1, 을축). */
  function GetDayGanJi(year: int, month: int, day: int): (r: GanJi)
    ensures InTables(r)
    ensures r.gan.Some? || r.ji.Some? ==> DaysSince1900(year, month, day).Some?
  {
    match DaysSince1900(year, month, day)
    case None => GanJi(None, None)
    case Some(n) =>
      GanJi(Lookup(HeavenlyStems, JsRem(n + 1, 10)), Lookup(EarthlyBranches, JsRem(n + 1, 12)))
  }

  /** The count the day pillar reduces: days since 1900-01-01, plus one. */
  function DayCount(dt: Date): int
    requires ValidDate(dt)
  {
    DayNumber(dt.year, dt.month, dt.day) - Epoch1900 + 1
  }

  /** For a valid date from 1900 to 275000, the day pillar is the stem and branch
      at the day count taken modulo 10 and modulo 12. */
  lemma DayPillarOfValidDate(dt: Date)
    requires ValidDate(dt) && 1900 <= dt.year <= 275000
    ensures DayCount(dt) >= 1
    ensures GetDayGanJi(dt.year, dt.month, dt.day)
         == GanJi(Some(HeavenlyStems[DayCount(dt) % 10]), Some(EarthlyBranches[DayCount(dt) % 12]))
  {
    LocalDateOfValidDate(dt);
    DayNumberRange(dt);
  }

  lemma DayCountNext(dt: Date)
    requires ValidDate(dt)
    ensures ValidDate(NextDate(dt))
    ensures DayCount(NextDate(dt)) == DayCount(dt) + 1
  {
    NextDayNumber(dt);
  }

  /** From one day to the next, the day count grows by one, so the day stem and
      the day branch both advance by one, cyclically. */
  lemma ConsecutiveDays(dt: Date)
    requires ValidDate(dt) && 1900 <= dt.year < 275000
    ensures var nx := NextDate(dt);
      GetDayGanJi(nx.year, nx.month, nx.day)
        == GanJi(Some(HeavenlyStems[(DayCount(dt) % 10 + 1) % 10]),
                 Some(EarthlyBranches[(DayCount(dt) % 12 + 1) % 12]))
  {
    DayCountNext(dt);
    var nx := NextDate(dt);
    var c := DayCount(dt);
    assert DayCount(nx) % 10 == (c % 10 + 1) % 10 by { ModSucc(c, 10); }
    assert DayCount(nx) % 12 == (c % 12 + 1) % 12 by { ModSucc(c, 12); }
    assert nx.year <= 275000;
    DayPillarOfValidDate(nx);
  }

  /** The day pillar reads a two-digit year as 1900 + year (the year pillar does not). */
  lemma DayPillarTwoDigitYear(year: int, month: int, day: int)
    requires 0 <= year <= 99
    ensures GetDayGanJi(year, month, day) == GetDayGanJi(1900 + year, month, day)
  {
  }

  /** Before 1900 the count is not positive, and JavaScript's `%` of a negative count
      is a negative, undefined index unless the count is a multiple (giving -0, read
      as index 0). So a stem exists only when the count is a multiple of 10 and a
      branch only when it is a multiple of 12. */
  lemma DayPillarBeforeEpoch(dt: Date)
    requires ValidDate(dt) && 100 <= dt.year < 1900
    ensures DayCount(dt) <= 0
    ensures GetDayGanJi(dt.year, dt.month, dt.day).gan.Some? <==> DayCount(dt) % 10 == 0
    ensures GetDayGanJi(dt.year, dt.month, dt.day).ji.Some? <==> DayCount(dt) % 12 == 0
  {
    var mi := dt.month - 1;
    assert mi / 12 == 0 && mi % 12 + 1 == dt.month;
    assert -MaxTimeDays <= DayNumber(dt.year, dt.month, dt.day) < Epoch1900;
    assert DaysSince1900(dt.year, dt.month, dt.day) == Some(DayCount(dt) - 1);
    JsRemIndex(DayCount(dt), 10);
    JsRemIndex(DayCount(dt), 12);
  }

  /** Three dates before 1900: 1899-12-30 (count -1) has no pillar, 1899-12-31
      (count 0) has 갑자, and 1899-12-21 (count -10, giving -0 for the stem) has the
      stem 갑 but no branch. */
  lemma DayPillarBefore1900()
    ensures GetDayGanJi(1899, 12, 30) == GanJi(None, None)
    ensures GetDayGanJi(1899, 12, 31) == GanJi(Some("갑"), Some("자"))
    ensures GetDayGanJi(1899, 12, 21) == GanJi(Some("갑"), None)
  {
    assert DaysSince1900(1899, 12, 30) == Some(-2);
    assert DaysSince1900(1899, 12, 31) == Some(-1);
    assert DaysSince1900(1899, 12, 21) == Some(-11);
  }

  // ---------------------------------------------------------------- hour pillar

  /** The hour pillar: the two-hour slot `Math.floor(hour / 2)` picks the branch,
      and the stem counts on from twice the day stem's position. */
  function TimeStemIndex(hour: int, dayGan: Option<string>): int {
    var timeIndex := hour / 2;
    var dayGanIndex := IndexOf(HeavenlyStems, dayGan);
    JsRem(dayGanIndex * 2 + timeIndex, 10)
  }

  function GetTimeGanJi(hour: int, dayGan: Option<string>): (r: GanJi)
    ensures InTables(r)
    ensures r.ji.Some? <==> 0 <= hour <= 23
  {
    GanJi(Lookup(HeavenlyStems, TimeStemIndex(hour, dayGan)), Lookup(EarthlyBranches, hour / 2))
  }

  /** `indexOf` finds the k-th stem at position k, so the hour stem index is
      (2k + hour / 2) mod 10. */
  lemma HourStemIndex(hour: int, k: int)
    requires 0 <= hour <= 23 && 0 <= k < 10
    ensures TimeStemIndex(hour, Some(HeavenlyStems[k])) == (2 * k + hour / 2) % 10
  {
    StemsDistinct();
    IndexOfLookup(HeavenlyStems, k);
  }

  /** For an hour 0..23 and the k-th day stem, the hour branch is slot hour / 2 (in
      0..11) and the hour stem is (2k + hour / 2) mod 10. */
  lemma HourPillar(hour: int, k: int)
    requires 0 <= hour <= 23 && 0 <= k < 10
    ensures 0 <= hour / 2 < 12
    ensures GetTimeGanJi(hour, Some(HeavenlyStems[k]))
         == GanJi(Some(HeavenlyStems[(2 * k + hour / 2) % 10]), Some(EarthlyBranches[hour / 2]))
  {
    HourStemIndex(hour, k);
  }

  /** With an undefined day stem (`indexOf` gives -1) the hour stem is still
      defined from 04:00 on, and undefined before. */
  lemma HourPillarWithoutDayStem(hour: int)
    requires 0 <= hour <= 23
    ensures TimeStemIndex(hour, None) == hour / 2 - 2
    ensures GetTimeGanJi(hour, None).gan.Some? <==> hour >= 4
  {
    assert IndexOf(HeavenlyStems, None) == -1;
    var t := hour / 2;
    assert -2 <= t - 2 < 10;
    assert JsRem(t - 2, 10) == t - 2;
  }

  // ---------------------------------------------------------------------- chart

  /** `hour || 12`: an absent hour and hour 0 both become 12. */
  function EffectiveHour(hour: Option<int>): (h: int)
    ensures h == 12 <==> hour == None || hour == Some(0) || hour == Some(12)
    ensures hour.Some? && hour.value != 0 ==> h == hour.value
  {
    match hour
    case None => 12
    case Some(h) => if h == 0 then 12 else h
  }

  datatype SajuChart = SajuChart(year: YearGanJi, month: GanJi, day: GanJi, time: GanJi)

  /** The chart of the `/api/saju` route; the hour pillar uses the day pillar's stem. */
  function ComputeSaju(year: int, month: int, day: int, hour: Option<int>): (c: SajuChart)
    ensures InTables(c.month) && InTables(c.day) && InTables(c.time)
    ensures c.time.ji.Some? <==> 0 <= EffectiveHour(hour) <= 23
  {
    SajuChart(GetYearGanJi(year), GetMonthGanJi(year, month), GetDayGanJi(year, month, day),
              GetTimeGanJi(EffectiveHour(hour), GetDayGanJi(year, month, day).gan))
  }

  /** A missing hour and hour 0 give the chart of 12:00 (午時). */
  lemma MissingHourIsNoon(year: int, month: int, day: int)
    ensures ComputeSaju(year, month, day, None) == ComputeSaju(year, month, day, Some(12))
    ensures ComputeSaju(year, month, day, Some(0)) == ComputeSaju(year, month, day, Some(12))
    ensures ComputeSaju(year, month, day, None).time.ji == Some("오")
  {
    assert EffectiveHour(None) == EffectiveHour(Some(0)) == EffectiveHour(Some(12)) == 12;
    assert Lookup(EarthlyBranches, 12 / 2) == Some("오");
  }

  /** Whatever the date, when the day stem is the k-th stem and the effective
      hour lies in 0..23, the chart's hour pillar is the (2k + hour / 2)-th stem and
      the (hour / 2)-th branch. */
  lemma HourPillarInChart(year: int, month: int, day: int, hour: Option<int>, k: int)
    requires 0 <= k < 10 && GetDayGanJi(year, month, day).gan == Some(HeavenlyStems[k])
    requires hour.Some? ==> 0 <= hour.value <= 23
    ensures var h := EffectiveHour(hour);
      ComputeSaju(year, month, day, hour).time
        == GanJi(Some(HeavenlyStems[(2 * k + h / 2) % 10]), Some(EarthlyBranches[h / 2]))
  {
    HourPillar(EffectiveHour(hour), k);
  }

  /** For a valid birth date from 1900 on and a birth hour 0..23 (or none), every
      pillar of the chart is defined. */
  lemma ChartIsComplete(dt: Date, hour: Option<int>)
    requires ValidDate(dt) && 1900 <= dt.year <= 275000
    requires hour.Some? ==> 0 <= hour.value <= 23
    ensures var c := ComputeSaju(dt.year, dt.month, dt.day, hour);
      c.year.gan.Some? && c.year.ji.Some? && c.year.zodiac.Some? &&
      c.month.gan.Some? && c.month.ji.Some? && c.day.gan.Some? && c.day.ji.Some? &&
      c.time.gan.Some? && c.time.ji.Some?
  {
    var c := ComputeSaju(dt.year, dt.month, dt.day, hour);
    assert c.year.gan.Some? && c.year.ji.Some? && c.year.zodiac.Some? by {
      YearPillar(dt.year);
      ZodiacAgreesWithBranch(dt.year, 0);
    }
    assert c.month.gan.Some? && c.month.ji.Some? by {
      MonthPillar(dt.year, dt.month);
    }
    assert c.day.gan == Some(HeavenlyStems[DayCount(dt) % 10]) && c.day.ji.Some? by {
      DayPillarOfValidDate(dt);
    }
    assert c.time.gan.Some? && c.time.ji.Some? by {
      HourPillarInChart(dt.year, dt.month, dt.day, hour, DayCount(dt) % 10);
    }
  }

  // -------------------------------------------------------------------- element

  const GanElements: map<string, string> :=
    map["갑" := "목", "을" := "목", "병" := "화", "정" := "화", "무" := "토",
        "기" := "토", "경" := "금", "신" := "금", "임" := "수", "계" := "수"]

  /** `getElementFromGanJi(gan, ji)`: the element of the stem, '토' when the stem
      is undefined or unknown (the branch argument is not used). */
  function ElementOf(gan: Option<string>): (e: string)
    ensures e in Elements
  {
    if gan.Some? && gan.value in GanElements then GanElements[gan.value] else "토"
  }

  /** Stems come in pairs per element, in the order 목 화 토 금 수. */
  lemma ElementOfStem(k: int)
    requires 0 <= k < 10
    ensures ElementOf(Some(HeavenlyStems[k])) == Elements[k / 2]
  {
  }

  /** An undefined stem, or any string that is not a stem, yields 토. */
  lemma ElementDefault(gan: Option<string>)
    requires gan.Some? ==> gan.value !in HeavenlyStems
    ensures ElementOf(gan) == "토"
  {
  }

  // ------------------------------------------------------- fortune text fallback

  /** What the external text-generation call produced: a failure (network error,
      bad status or malformed reply) or a reply whose `data[0]?.generated_text` may be absent. */
  datatype ProviderReply = ProviderFailed | ProviderReplied(generatedText: Option<string>)

  /** The narrative is either the provider's text or the locally composed fortune;
      the local one is a template over the chart, the name, the gender and the
      elements of the year and month stems (its phrases are not modelled). */
  datatype Fortune =
    | AiFortune(text: string)
    | BasicFortune(chart: SajuChart, name: string, gender: string, yearElement: string, monthElement: string)

  function GenerateBasicFortune(chart: SajuChart, name: string, gender: string): (f: Fortune)
    ensures f.BasicFortune? && f.chart == chart && f.name == name && f.gender == gender
    ensures f.yearElement == ElementOf(chart.year.gan) && f.monthElement == ElementOf(chart.month.gan)
    ensures f.yearElement in Elements && f.monthElement in Elements
  {
    BasicFortune(chart, name, gender, ElementOf(chart.year.gan), ElementOf(chart.month.gan))
  }

  /** `getAIFortune`: the provider's text when it is a non-empty string, otherwise
      (failure, missing or empty text) the local fortune. */
  function GetAiFortune(reply: ProviderReply, chart: SajuChart, name: string, gender: string): (f: Fortune)
    ensures f == GenerateBasicFortune(chart, name, gender)
        <==> reply.ProviderFailed? || reply.generatedText in {None, Some("")}
    ensures f.AiFortune? ==> f.text != "" && reply == ProviderReplied(Some(f.text))
    ensures reply.ProviderReplied? && reply.generatedText.Some? && reply.generatedText.value != "" ==>
      f == AiFortune(reply.generatedText.value)
  {
    match reply
    case ProviderFailed => GenerateBasicFortune(chart, name, gender)
    case ProviderReplied(t) =>
      if t.Some? && t.value != "" then AiFortune(t.value) else GenerateBasicFortune(chart, name, gender)
  }
}
