/** The daily ranking of the twelve zodiac animals: one seed and one score per
    animal, a stable sort by descending score done in place on an array, and ranks
    1..12 given in the sorted order. The animals are the same twelve names, in the
    same order, as the calculator's zodiac table. */
module ZodiacRanking {
  import opened JsCore
  import opened Calendar
  import opened Saju
  import opened Luck

  datatype ZodiacEntry = ZodiacEntry(zodiac: string, score: int, rank: int, message: string)

  // ---------------------------------------------------------------------- messages

  const HighMessages: seq<string> := [
    "오늘은 기회가 많이 찾아올 것입니다.",
    "꾸준한 노력이 결실을 맺을 날입니다.",
    "리더십을 발휘할 기회가 올 것입니다.",
    "평화롭고 행복한 하루가 될 것입니다.",
    "큰 성과를 거둘 수 있는 날입니다.",
    "직감이 뛰어난 날입니다. 믿고 행동하세요.",
    "활발한 활동이 좋은 결과를 가져올 것입니다.",
    "주변 사람들과의 화합이 중요한 날입니다.",
    "창의적인 아이디어가 빛을 발할 것입니다.",
    "세심한 준비가 성공으로 이어질 것입니다.",
    "진실된 마음이 통하는 날입니다.",
    "관대한 마음이 복을 부를 것입니다."
  ]

  const LowMessages: seq<string> := [
    "신중한 판단이 필요한 날입니다.",
    "참을성을 가지고 기다리는 것이 좋습니다.",
    "성급한 결정은 피하는 것이 좋습니다.",
    "조용히 자신만의 시간을 가져보세요.",
    "겸손한 자세를 유지하는 것이 좋습니다.",
    "신중하게 생각한 후 행동하세요.",
    "무리한 일정은 피하는 것이 좋습니다.",
    "혼자만의 시간이 필요할 수 있습니다.",
    "계획을 차근차근 세워보세요.",
    "완벽을 추구하기보다 적당히 타협하세요.",
    "신뢰할 만한 사람들과 시간을 보내세요.",
    "절약하는 마음가짐이 필요한 날입니다."
  ]

  const DefaultZodiacMessage: string := "오늘도 좋은 하루 되세요!"

  /** `getZodiacDailyMessage(animal, score)`: the animal's upbeat message from a
      score of 70 on, its cautious one below, and a generic greeting for a name
      that is not one of the twelve. */
  function ZodiacDailyMessage(animal: string, score: int): (m: string)
    ensures animal !in ZodiacAnimals ==> m == DefaultZodiacMessage
    ensures animal in ZodiacAnimals ==> m in HighMessages || m in LowMessages
  {
    var k := IndexOf(ZodiacAnimals, Some(animal));
    if k < 0 then DefaultZodiacMessage
    else if score >= 70 then HighMessages[k] else LowMessages[k]
  }

  /** Each animal gets its upbeat message exactly when its score is at least 70,
      and its cautious one otherwise. */
  lemma ZodiacMessageBands(k: int, score: int)
    requires 0 <= k < 12
    ensures ZodiacDailyMessage(ZodiacAnimals[k], score) == HighMessages[k] <==> score >= 70
    ensures ZodiacDailyMessage(ZodiacAnimals[k], score) == LowMessages[k] <==> score < 70
  {
    AnimalsDistinct();
    IndexOfLookup(ZodiacAnimals, k);
    MessagesDiffer(k);
  }

  lemma MessagesDiffer(k: int)
    requires 0 <= k < 12
    ensures HighMessages[k] != LowMessages[k]
  {
    assert HighMessages[k][0] != LowMessages[k][0];
  }

  // ---------------------------------------------------------------------- entries

  /** The score of animal k: `Math.floor(random * 100) + 1` for the seed
      `dayOfYear + k * 123`. */
  function ZodiacScore(dayOfYear: int, k: int): (s: int)
    ensures dayOfYear + k * 123 >= -5 ==> InScoreRange(s)
  {
    Scores(Lcg(dayOfYear + k * 123)).overall
  }

  /** From day 1 of the year on every animal's score is in 1..100. */
  lemma ZodiacScoreBounds(dayOfYear: int, k: int)
    requires dayOfYear >= 1 && k >= 0
    ensures 1 <= ZodiacScore(dayOfYear, k) <= 100
  {
    ScaledBounds(Lcg(dayOfYear + k * 123), 100);
  }

  /** Position of an entry's animal in the zodiac table (its place before sorting). */
  function Key(e: ZodiacEntry): int {
    IndexOf(ZodiacAnimals, Some(e.zodiac))
  }

  /** The entries `zodiacAnimals.map(...)` builds, in table order, rank 0. */
  function ZodiacEntries(dayOfYear: int): (es: seq<ZodiacEntry>)
    ensures |es| == 12
    ensures forall k :: 0 <= k < 12 ==> Key(es[k]) == k && es[k].rank == 0
    ensures forall k :: 0 <= k < 12 ==>
      es[k].zodiac == ZodiacAnimals[k] && es[k].score == ZodiacScore(dayOfYear, k)
  {
    AnimalsDistinct();
    seq(12, k requires 0 <= k < 12 =>
      var score := ZodiacScore(dayOfYear, k);
      assert Key(ZodiacEntry(ZodiacAnimals[k], score, 0, "")) == k by {
        IndexOfLookup(ZodiacAnimals, k);
      }
      ZodiacEntry(ZodiacAnimals[k], score, 0, ZodiacDailyMessage(ZodiacAnimals[k], score)))
  }

  /** Entry k of the unsorted list is the k-th animal with its score and message. */
  lemma ZodiacEntryOf(dayOfYear: int, k: int)
    requires dayOfYear >= 1 && 0 <= k < 12
    ensures ZodiacEntries(dayOfYear)[k].zodiac == ZodiacAnimals[k]
    ensures 1 <= ZodiacEntries(dayOfYear)[k].score <= 100
    ensures ZodiacEntries(dayOfYear)[k].message == HighMessages[k]
        <==> ZodiacEntries(dayOfYear)[k].score >= 70
  {
    ZodiacScoreBounds(dayOfYear, k);
    ZodiacMessageBands(k, ZodiacScore(dayOfYear, k));
  }

  // ---------------------------------------------------------------------- order

  /** x comes before y in the output: a higher score, or the same score and an
      earlier place in the input (a stable sort keeps equal scores in input order). */
  predicate Precedes(x: ZodiacEntry, y: ZodiacEntry, place: ZodiacEntry -> int) {
    x.score > y.score || (x.score == y.score && place(x) < place(y))
  }

  predicate Ordered(s: seq<ZodiacEntry>, place: ZodiacEntry -> int) {
    forall i, j :: 0 <= i < j < |s| ==> Precedes(s[i], s[j], place)
  }

  lemma PrecedesTransitive(x: ZodiacEntry, y: ZodiacEntry, z: ZodiacEntry, place: ZodiacEntry -> int)
    requires Precedes(x, y, place) && Precedes(y, z, place)
    ensures Precedes(x, z, place)
  {
  }

  /** The first n entries of the array are ordered. */
  predicate OrderedPrefix(a: array<ZodiacEntry>, n: int, place: ZodiacEntry -> int)
    reads a
    requires 0 <= n <= a.Length
  {
    forall p, q :: 0 <= p < q < n ==> Precedes(a[p], a[q], place)
  }

  /** `entries.sort((a, b) => b.score - a.score)`, where `place` gives each entry's
      input position: afterwards the entries are a permutation of the input, by
      non-increasing score, and entries with equal scores keep their input order. */
  method SortByScore(a: array<ZodiacEntry>, ghost place: ZodiacEntry -> int)
    requires forall k :: 0 <= k < a.Length ==> place(a[k]) == k
    modifies a
    ensures Ordered(a[..], place)
    ensures multiset(a[..]) == multiset(old(a[..]))
  {
    var i := 0;
    while i < a.Length
      invariant 0 <= i <= a.Length
      invariant OrderedPrefix(a, i, place)
      invariant forall m :: 0 <= m < i ==> place(a[m]) < i
      invariant forall m :: i <= m < a.Length ==> a[m] == old(a[m])
      invariant multiset(a[..]) == multiset(old(a[..]))
    {
      Insert(a, i, place);
      i := i + 1;
    }
  }

  /** One step of the sort: the entry at i moves left past every entry with a
      strictly lower score, so that the first i + 1 entries are ordered. */
  method Insert(a: array<ZodiacEntry>, i: int, ghost place: ZodiacEntry -> int)
    requires 0 <= i < a.Length
    requires OrderedPrefix(a, i, place)
    requires forall m :: 0 <= m < i ==> place(a[m]) < i
    requires place(a[i]) == i
    modifies a
    ensures OrderedPrefix(a, i + 1, place)
    ensures forall m :: 0 <= m <= i ==> place(a[m]) <= i
    ensures forall m :: i < m < a.Length ==> a[m] == old(a[m])
    ensures multiset(a[..]) == multiset(old(a[..]))
  {
    var j := i;
    while j > 0 && a[j - 1].score < a[j].score
      invariant 0 <= j <= i
      invariant place(a[j]) == i
      invariant forall m :: 0 <= m <= i && m != j ==> place(a[m]) < i
      invariant forall p, q :: 0 <= p < q <= i && p != j && q != j ==> Precedes(a[p], a[q], place)
      invariant forall q :: j < q <= i ==> Precedes(a[j], a[q], place)
      invariant forall m :: i < m < a.Length ==> a[m] == old(a[m])
      invariant multiset(a[..]) == multiset(old(a[..]))
    {
      Swap(a, j - 1, j);
      j := j - 1;
    }
    if j > 0 {
      assert Precedes(a[j - 1], a[j], place);
      forall p | 0 <= p < j - 1
        ensures Precedes(a[p], a[j], place)
      {
        PrecedesTransitive(a[p], a[j - 1], a[j], place);
      }
    }
  }

  /** Exchange two entries of the array. */
  method Swap(a: array<ZodiacEntry>, i: int, j: int)
    requires 0 <= i < j < a.Length
    modifies a
    ensures a[i] == old(a[j]) && a[j] == old(a[i])
    ensures forall m :: 0 <= m < a.Length && m != i && m != j ==> a[m] == old(a[m])
    ensures multiset(a[..]) == multiset(old(a[..]))
  {
    a[i], a[j] := a[j], a[i];
  }

  /** `.map((item, index) => ({ ...item, rank: index + 1 }))`: ranks 1, 2, ... in
      order, everything else kept. */
  method AssignRanks(s: seq<ZodiacEntry>) returns (r: seq<ZodiacEntry>)
    ensures |r| == |s|
    ensures forall i :: 0 <= i < |r| ==> r[i] == s[i].(rank := i + 1)
  {
    r := [];
    var i := 0;
    while i < |s|
      invariant 0 <= i <= |s| && |r| == i
      invariant forall k :: 0 <= k < i ==> r[k] == s[k].(rank := k + 1)
    {
      r := r + [s[i].(rank := i + 1)];
      i := i + 1;
    }
  }

  /** The entries with their ranks reset to 0. */
  function Unranked(s: seq<ZodiacEntry>): (u: seq<ZodiacEntry>)
    ensures |u| == |s|
    ensures forall i :: 0 <= i < |s| ==> u[i] == s[i].(rank := 0)
  {
    seq(|s|, i requires 0 <= i < |s| => s[i].(rank := 0))
  }

  /** `generateZodiacDailyFortune(date)`: the twelve animals, each once, with the
      scores of the day, by non-increasing score, ties in table order, ranked 1..12. */
  method ZodiacDailyFortune(dt: Date) returns (r: seq<ZodiacEntry>)
    requires ValidDate(dt) && dt.year >= 100
    ensures |r| == 12
    ensures forall i :: 0 <= i < 12 ==> r[i].rank == i + 1
    ensures multiset(Unranked(r)) == multiset(ZodiacEntries(DayOfYear(dt)))
    ensures forall i, j :: 0 <= i < j < 12 ==> r[i].score >= r[j].score
    ensures forall i, j :: 0 <= i < j < 12 && r[i].score == r[j].score ==> Key(r[i]) < Key(r[j])
  {
    r := RankEntries(ZodiacEntries(DayOfYear(dt)));
  }

  /** Sorting the twelve unranked entries in table order and numbering them: the
      `sort` and the `map` that assigns ranks. */
  method RankEntries(entries: seq<ZodiacEntry>) returns (r: seq<ZodiacEntry>)
    requires |entries| == 12
    requires forall k :: 0 <= k < 12 ==> Key(entries[k]) == k && entries[k].rank == 0
    ensures |r| == 12
    ensures forall i :: 0 <= i < 12 ==> r[i].rank == i + 1
    ensures multiset(Unranked(r)) == multiset(entries)
    ensures forall i, j :: 0 <= i < j < 12 ==> r[i].score >= r[j].score
    ensures forall i, j :: 0 <= i < j < 12 && r[i].score == r[j].score ==> Key(r[i]) < Key(r[j])
  {
    var a := new ZodiacEntry[12](k requires 0 <= k < 12 => entries[k]);
    assert a[..] == entries;
    SortByScore(a, Key);
    var sorted := a[..];
    UnrankedPermutation(entries, sorted);
    r := AssignRanks(sorted);
    assert Unranked(r) == sorted;
  }

  /** A permutation of entries of rank 0 has only entries of rank 0. */
  lemma UnrankedPermutation(s: seq<ZodiacEntry>, t: seq<ZodiacEntry>)
    requires forall k :: 0 <= k < |s| ==> s[k].rank == 0
    requires multiset(t) == multiset(s)
    ensures forall i :: 0 <= i < |t| ==> t[i].rank == 0
  {
    forall i | 0 <= i < |t|
      ensures t[i].rank == 0
    {
      assert t[i] in multiset(s);
    }
  }

  /** The first entry of an ordered list precedes every other entry in it. */
  lemma FirstPrecedes(s: seq<ZodiacEntry>, x: ZodiacEntry, place: ZodiacEntry -> int)
    requires Ordered(s, place)
    requires x in multiset(s) && x != s[0]
    ensures Precedes(s[0], x, place)
  {
    var i :| 0 <= i < |s| && s[i] == x;
  }

  /** The order above pins the result down: two lists of the same entries that are
      both ordered by Precedes are equal, so the sort has exactly one possible
      outcome. */
  lemma {:induction false} OrderedUnique(s: seq<ZodiacEntry>, t: seq<ZodiacEntry>, place: ZodiacEntry -> int)
    requires Ordered(s, place) && Ordered(t, place)
    requires multiset(s) == multiset(t)
    ensures s == t
    decreases |s|
  {
    if |s| == 0 {
      assert |t| == |multiset(t)| == 0;
    } else {
      assert |t| == |multiset(t)| == |s|;
      if s[0] != t[0] {
        FirstPrecedes(s, t[0], place);
        FirstPrecedes(t, s[0], place);
        assert false;
      }
      assert s == [s[0]] + s[1..];
      assert t == [t[0]] + t[1..];
      assert multiset(s[1..]) == multiset(t[1..]) by {
        assert multiset(s) == multiset{s[0]} + multiset(s[1..]);
        assert multiset(t) == multiset{t[0]} + multiset(t[1..]);
        assert multiset(s[1..]) == multiset(s) - multiset{s[0]};
        assert multiset(t[1..]) == multiset(t) - multiset{t[0]};
      }
      assert Ordered(s[1..], place) by {
        forall i, j | 0 <= i < j < |s| - 1 ensures Precedes(s[1..][i], s[1..][j], place) {
          assert s[1..][i] == s[i + 1] && s[1..][j] == s[j + 1];
        }
      }
      assert Ordered(t[1..], place) by {
        forall i, j | 0 <= i < j < |t| - 1 ensures Precedes(t[1..][i], t[1..][j], place) {
          assert t[1..][i] == t[i + 1] && t[1..][j] == t[j + 1];
        }
      }
      OrderedUnique(s[1..], t[1..], place);
    }
  }
}
