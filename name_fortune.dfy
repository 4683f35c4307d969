/** The name reading: which of five phrases a name gets for its meaning, its fortune
    and its career. A name is a sequence of UTF-16 code units, as a JavaScript
    string is; `length` counts code units and `charCodeAt` reads one. */
module NameFortune {
  import opened JsCore

  const Meanings: seq<string> := [
    "아름다운 의미를 담고 있는 이름입니다.",
    "희망과 밝음을 상징하는 이름입니다.",
    "지혜와 총명함을 나타내는 이름입니다.",
    "성실함과 착함을 의미하는 이름입니다.",
    "건강과 장수를 기원하는 이름입니다."
  ]

  const Fortunes: seq<string> := [
    "전반적으로 운이 좋은 이름입니다.",
    "인기운이 상승하는 이름입니다.",
    "재물운이 따르는 이름입니다.",
    "건강운이 좋은 이름입니다.",
    "사랑운이 풍부한 이름입니다."
  ]

  const Careers: seq<string> := [
    "창의적인 분야에서 성공할 가능성이 높습니다.",
    "리더십을 발휘하는 직업에 적합합니다.",
    "전문직에서 인정받을 수 있습니다.",
    "사람들과 소통하는 일에 재능이 있습니다.",
    "예술적 감각을 활용한 일에 좋습니다."
  ]

  lemma TablesDistinct()
    ensures |Meanings| == |Fortunes| == |Careers| == 5
    ensures Distinct(Meanings) && Distinct(Fortunes) && Distinct(Careers)
  {
  }

  /** `getNameMeaning(name)`: `meanings[name.length % meanings.length]`. */
  function NameMeaning(name: seq<CodeUnit>): (m: string)
    ensures m in Meanings
  {
    Meanings[|name| % |Meanings|]
  }

  /** `getNameCareer(name)`: `careers[name.length % careers.length]`. */
  function NameCareer(name: seq<CodeUnit>): (c: string)
    ensures c in Careers
  {
    Careers[|name| % |Careers|]
  }

  /** `getNameFortune(name, gender)`: the phrase at `(first + last) % 5` for the
      first and last code units. For the empty name `charCodeAt(0)` is NaN and the
      phrase is `undefined` (None); the gender is not used. */
  function NameFortune(name: seq<CodeUnit>): (r: Option<string>)
    ensures r.Some? <==> |name| > 0
  {
    if |name| == 0 then None
    else Lookup(Fortunes, (name[0] as int + name[|name| - 1] as int) % |Fortunes|)
  }

  /** Meaning and career are picked by the same index, the length modulo 5: a name
      gets the k-th meaning exactly when it gets the k-th career. */
  lemma MeaningAndCareerIndex(name: seq<CodeUnit>, k: int)
    requires 0 <= k < 5
    ensures NameMeaning(name) == Meanings[k] <==> |name| % 5 == k
    ensures NameCareer(name) == Careers[k] <==> |name| % 5 == k
  {
    TablesDistinct();
  }

  /** Names whose lengths differ by a multiple of 5 get the same meaning and career. */
  lemma MeaningByLength(a: seq<CodeUnit>, b: seq<CodeUnit>)
    requires |a| % 5 == |b| % 5
    ensures NameMeaning(a) == NameMeaning(b) && NameCareer(a) == NameCareer(b)
  {
  }

  /** A non-empty name gets the fortune at `(first + last) % 5`, which is always
      in 0..4, and no other one. */
  lemma FortuneIndex(name: seq<CodeUnit>, k: int)
    requires |name| > 0 && 0 <= k < 5
    ensures 0 <= (name[0] as int + name[|name| - 1] as int) % 5 < 5
    ensures NameFortune(name) == Some(Fortunes[k]) <==> (name[0] as int + name[|name| - 1] as int) % 5 == k
  {
    TablesDistinct();
  }

  /** The name read backwards. */
  function Reverse(name: seq<CodeUnit>): (r: seq<CodeUnit>)
    ensures |r| == |name|
    ensures forall i :: 0 <= i < |name| ==> r[i] == name[|name| - 1 - i]
  {
    seq(|name|, i requires 0 <= i < |name| => name[|name| - 1 - i])
  }

  /** The fortune looks only at the two ends of the name, so reading it backwards
      gives the same fortune, and so does changing any code unit in between. */
  lemma FortuneOfReverse(name: seq<CodeUnit>)
    ensures NameFortune(Reverse(name)) == NameFortune(name)
  {
  }

  lemma FortuneIgnoresMiddle(a: seq<CodeUnit>, b: seq<CodeUnit>)
    requires |a| > 0 && |b| > 0
    requires a[0] == b[0] && a[|a| - 1] == b[|b| - 1]
    ensures NameFortune(a) == NameFortune(b)
  {
  }

  /** A one-unit name counts its code unit twice. */
  lemma FortuneOfOneUnit(c: CodeUnit)
    ensures NameFortune([c]) == Some(Fortunes[(2 * (c as int)) % 5])
  {
  }
}
