/** The client-side IPO score (client/src/lib/ipo-calculator.ts): five
    sub-scores read from free-text fields, their sum, and a grade band chosen
    by the sum. Rates and ratios are exact reals; no floating point. */
module IpoCalculator {
  import opened Wrappers
  import opened Text
  import opened JsNumbers

  /** The fields of an IPO the calculator reads (`IpoData`). */
  datatype IpoData = IpoData(
    competition: Option<string>,
    lockupRate: Option<string>,
    circulatingSupply: Option<string>,
    offerPrice: Option<int>,
    otcPrice: Option<string>,
    listDate: Option<string>)

  datatype Details = Details(
    competitionScore: int,
    lockupScore: int,
    supplyScore: int,
    otcScore: int,
    listingScore: int)

  datatype ScoreResult = ScoreResult(
    totalScore: int,
    grade: string,
    description: string,
    colorClass: string,
    bgClass: string,
    details: Details)

  /** A string field JavaScript treats as true: present and not empty. */
  predicate Truthy(s: Option<string>) {
    s.Some? && s.value != ""
  }

  predicate IsRateChar(c: char) {
    IsDigit(c) || c == ',' || c == '.'
  }

  /** The rate a text field carries: the first match of `/([\d,.]+)/`, with
      its commas removed, read by `parseFloat`. `None` when nothing matches
      or the run is not a number (NaN). */
  function ExtractRate(s: string): (r: Option<real>)
    ensures (forall k :: 0 <= k < |s| ==> !IsRateChar(s[k])) ==> r.None?
    ensures match FirstRun(s, IsRateChar)
      case None => r.None?
      case Some((i, j)) =>
        var run := RemoveChars(s[i..j], {','});
        && (forall k :: 0 <= k < |run| ==> IsDigitOrDot(run[k]))
        && r == DecimalRunValue(run)
    ensures r.Some? ==> r.value >= 0.0
  {
    match FirstRun(s, IsRateChar)
    case None => None
    case Some((i, j)) =>
      var run := RemoveChars(s[i..j], {','});
      assert forall c :: c in s[i..j] ==> IsRateChar(c);
      DecimalRunValue(run)
  }

  /** A field that is a plain decimal number reads as that number. */
  lemma ExtractRateOfDigits(ds: string)
    requires ds != [] && AllDigits(ds)
    ensures ExtractRate(ds) == Some(DigitsValue(ds) as real)
  {
    var r := FirstRun(ds, IsRateChar);
    assert r == Some((0, |ds|));
    assert ds[0..|ds|] == ds;
    RemoveCharsAbsent(ds, {','});
    var n := SpanEnd(ds, 0, IsDigit);
    assert n == |ds|;
    assert ds[..n] == ds;
  }

  /** Digit groups joined by a thousands comma read as the number without
      the comma: "1,234" is 1234. */
  lemma ExtractRateDropsComma(a: string, b: string)
    requires a != [] && AllDigits(a) && AllDigits(b)
    ensures ExtractRate(a + "," + b) == Some(DigitsValue(a + b) as real)
  {
    var s := a + "," + b;
    forall k | 0 <= k < |s| ensures IsRateChar(s[k]) {
      if k < |a| { assert s[k] == a[k]; } else if k > |a| { assert s[k] == b[k - |a| - 1]; }
    }
    FirstRunWhole(s, IsRateChar);
    assert s[0..|s|] == s;
    CommaRemoved(a, b);
    assert AllDigits(a + b) by {
      forall k | 0 <= k < |a + b| ensures IsDigit((a + b)[k]) {
        if k < |a| { assert (a + b)[k] == a[k]; } else { assert (a + b)[k] == b[k - |a|]; }
      }
    }
    DigitsRunValue(a + b);
  }

  /** The thousands comma between two digit groups is all that is removed. */
  lemma CommaRemoved(a: string, b: string)
    requires AllDigits(a) && AllDigits(b)
    ensures RemoveChars(a + "," + b, {','}) == a + b
  {
    var cs, comma := {','}, [','];
    assert a + "," + b == (a + comma) + b;
    RemoveCharsAppend(a + comma, b, cs);
    RemoveCharsAppend(a, comma, cs);
    assert RemoveChars(comma, cs) == [] by {
      assert comma[0] in cs && comma[1..] == [];
    }
    RemoveCharsAbsent(a, cs);
    RemoveCharsAbsent(b, cs);
    assert RemoveChars(a + comma, cs) == a;
  }

  /** A run of digits alone reads as its decimal value. */
  lemma DigitsRunValue(ds: string)
    requires ds != [] && AllDigits(ds)
    ensures forall k :: 0 <= k < |ds| ==> IsDigitOrDot(ds[k])
    ensures DecimalRunValue(ds) == Some(DigitsValue(ds) as real)
  {
    var n := SpanEnd(ds, 0, IsDigit);
    assert n == |ds|;
    assert ds[..n] == ds;
  }

  /** `String(n)` read back as a rate gives `n`. */
  lemma ExtractRateOfDecimalString(n: nat)
    ensures ExtractRate(DecimalString(n)) == Some(n as real)
  {
    ExtractRateOfDigits(DecimalString(n));
  }

  /** The rate of an optional field: `None` for an absent or empty field too,
      which the source skips with `if (field)`. */
  function FieldRate(f: Option<string>): (r: Option<real>)
    ensures !Truthy(f) ==> r.None?
    ensures Truthy(f) ==> r == ExtractRate(f.value)
  {
    if Truthy(f) then ExtractRate(f.value) else None
  }

  // ----- 1. institutional competition rate -----

  function CompetitionPoints(rate: real): (p: int)
    ensures 0 <= p <= 5
  {
    if rate >= 500.0 then 5
    else if rate >= 450.0 then 4
    else if rate >= 400.0 then 3
    else if rate >= 350.0 then 2
    else if rate >= 300.0 then 1
    else 0
  }

  /** The competition sub-score: the points of the extracted rate, and 0 for an
      absent or empty field, a field without a number, or a run that is NaN. */
  function CompetitionScore(ipo: IpoData): (score: int)
    ensures 0 <= score <= 5
    ensures FieldRate(ipo.competition).None? ==> score == 0
    ensures FieldRate(ipo.competition).Some? ==> score == CompetitionPoints(FieldRate(ipo.competition).value)
  {
    match FieldRate(ipo.competition)
    case None => 0
    case Some(rate) => CompetitionPoints(rate)
  }

  /** The competition points never fall as the rate grows. */
  lemma CompetitionPointsMonotone(a: real, b: real)
    requires a <= b
    ensures CompetitionPoints(a) <= CompetitionPoints(b)
  {
  }

  /** The buckets of the competition rate, each a half-open interval. */
  lemma CompetitionBuckets(rate: real)
    ensures CompetitionPoints(rate) == 5 <==> rate >= 500.0
    ensures CompetitionPoints(rate) == 4 <==> 450.0 <= rate < 500.0
    ensures CompetitionPoints(rate) == 3 <==> 400.0 <= rate < 450.0
    ensures CompetitionPoints(rate) == 2 <==> 350.0 <= rate < 400.0
    ensures CompetitionPoints(rate) == 1 <==> 300.0 <= rate < 350.0
    ensures CompetitionPoints(rate) == 0 <==> rate < 300.0
  {
  }

  // ----- 2. mandatory holding commitment (lockup) -----

  function LockupPoints(rate: real): int {
    if rate >= 30.0 then 10
    else if rate >= 20.0 then 8
    else if rate >= 15.0 then 6
    else if rate >= 10.0 then 4
    else if rate >= 5.0 then 2
    else 0
  }

  function LockupScore(ipo: IpoData): (score: int)
    ensures score in {0, 2, 4, 6, 8, 10}
    ensures FieldRate(ipo.lockupRate).None? ==> score == 0
    ensures FieldRate(ipo.lockupRate).Some? ==> score == LockupPoints(FieldRate(ipo.lockupRate).value)
  {
    match FieldRate(ipo.lockupRate)
    case None => 0
    case Some(rate) => LockupPoints(rate)
  }

  lemma LockupPointsMonotone(a: real, b: real)
    requires a <= b
    ensures LockupPoints(a) <= LockupPoints(b)
  {
  }

  lemma LockupBuckets(rate: real)
    ensures LockupPoints(rate) == 10 <==> rate >= 30.0
    ensures LockupPoints(rate) == 8 <==> 20.0 <= rate < 30.0
    ensures LockupPoints(rate) == 6 <==> 15.0 <= rate < 20.0
    ensures LockupPoints(rate) == 4 <==> 10.0 <= rate < 15.0
    ensures LockupPoints(rate) == 2 <==> 5.0 <= rate < 10.0
    ensures LockupPoints(rate) == 0 <==> rate < 5.0
  {
  }

  // ----- 3. circulating supply, in units of 100 million won (억) -----

  const Eok: char := '억'

  /** `/(\d+)억/` matches at index `k`: a digit run starting at `k` ends
      right before '억'. */
  ghost predicate SupplyMatchAt(s: string, k: int) {
    0 <= k && exists j :: k < j < |s| && s[j] == Eok && forall m :: k <= m < j ==> IsDigit(s[m])
  }

  /** The leftmost match of `/(\d+)억/` at or after `i`, as the bounds of the
      captured digits. */
  function SupplyMatchFrom(s: string, i: nat): (r: Option<(nat, nat)>)
    requires i <= |s|
    ensures r.Some? ==> i <= r.value.0 < r.value.1 < |s| && s[r.value.1] == Eok
    ensures r.Some? ==> forall m :: r.value.0 <= m < r.value.1 ==> IsDigit(s[m])
    ensures r.Some? ==> forall k :: i <= k < r.value.0 ==> !SupplyMatchAt(s, k)
    ensures r.None? ==> forall k :: i <= k < |s| ==> !SupplyMatchAt(s, k)
    decreases |s| - i
  {
    if i == |s| then None
    else if !IsDigit(s[i]) then SupplyMatchFrom(s, i + 1)
    else
      var j := SpanEnd(s, i, IsDigit);
      if j < |s| && s[j] == Eok then Some((i, j))
      else
        SupplyMatchFrom(s, j)
  }

  /** The amount a supply text states: `parseInt` of the digits captured by
      `/(\d+)억/`, which are never empty. */
  function ExtractSupply(s: string): (r: Option<nat>)
    ensures r.None? <==> forall k :: 0 <= k < |s| ==> !SupplyMatchAt(s, k)
    ensures r.Some? ==>
      && SupplyMatchFrom(s, 0).Some?
      && var (i, j) := SupplyMatchFrom(s, 0).value;
         AllDigits(s[i..j]) && r.value == DigitsValue(s[i..j])
  {
    match SupplyMatchFrom(s, 0)
    case None => None
    case Some((i, j)) =>
      assert SupplyMatchAt(s, i);
      assert AllDigits(s[i..j]);
      ParseIntDigits(s[i..j]);
      Some(DigitsValue(s[i..j]))
  }

  /** A supply text that starts with a number of 억 reads as that number,
      whatever follows. */
  lemma ExtractSupplyOfLeadingAmount(d: string, t: string)
    requires d != [] && AllDigits(d)
    ensures ExtractSupply(d + [Eok] + t) == Some(DigitsValue(d))
  {
    var s := d + [Eok] + t;
    assert s[|d|] == Eok;
    forall m | 0 <= m < |d| ensures IsDigit(s[m]) {
      assert s[m] == d[m];
    }
    assert SpanEnd(s, |d|, IsDigit) == |d|;
    SpanEndFromDigits(s, 0, |d|);
    assert SupplyMatchFrom(s, 0) == Some((0, |d|));
    assert s[0..|d|] == d;
  }

  /** Across a stretch of digits, the digit run goes on to where it does from the stretch's end. */
  lemma {:induction false} SpanEndFromDigits(s: string, i: nat, j: nat)
    requires i <= j <= |s|
    requires forall m :: i <= m < j ==> IsDigit(s[m])
    ensures SpanEnd(s, i, IsDigit) == SpanEnd(s, j, IsDigit)
    decreases j - i
  {
    if i < j {
      SpanEndFromDigits(s, i + 1, j);
    }
  }

  function SupplyPoints(value: int): int {
    if value <= 200 then 10
    else if value <= 500 then 6
    else if value <= 1000 then 4
    else if value <= 2000 then 2
    else if value <= 3000 then 1
    else 0
  }

  function SupplyScore(ipo: IpoData): (score: int)
    ensures score in {0, 1, 2, 4, 6, 10}
    ensures !Truthy(ipo.circulatingSupply) ==> score == 0
    ensures Truthy(ipo.circulatingSupply) && ExtractSupply(ipo.circulatingSupply.value).None? ==> score == 0
    ensures Truthy(ipo.circulatingSupply) && ExtractSupply(ipo.circulatingSupply.value).Some? ==>
      score == SupplyPoints(ExtractSupply(ipo.circulatingSupply.value).value)
  {
    if Truthy(ipo.circulatingSupply) then
      match ExtractSupply(ipo.circulatingSupply.value)
      case None => 0
      case Some(v) => SupplyPoints(v)
    else 0
  }

  /** A larger tradable supply never scores higher. */
  lemma SupplyPointsAntitone(a: int, b: int)
    requires a <= b
    ensures SupplyPoints(a) >= SupplyPoints(b)
  {
  }

  lemma SupplyBuckets(v: int)
    ensures SupplyPoints(v) == 10 <==> v <= 200
    ensures SupplyPoints(v) == 6 <==> 200 < v <= 500
    ensures SupplyPoints(v) == 4 <==> 500 < v <= 1000
    ensures SupplyPoints(v) == 2 <==> 1000 < v <= 2000
    ensures SupplyPoints(v) == 1 <==> 2000 < v <= 3000
    ensures SupplyPoints(v) == 0 <==> v > 3000
  {
  }

  // ----- 4. over-the-counter price against the offer price -----

  /** `((otc - offer) / offer) * 100`, exactly. */
  function Premium(otc: int, offer: int): real
    requires offer > 0
  {
    ((otc - offer) as real / offer as real) * 100.0
  }

  function OtcPoints(premium: real): int {
    if premium >= 160.0 then 6
    else if premium >= 100.0 then 3
    else if premium > 50.0 then 0
    else -3
  }

  /** The OTC sub-score: 0 unless the OTC text is non-empty, the offer price is
      present and non-zero, the comma-free OTC text reads as an integer and the
      offer is positive; otherwise the points of the premium. */
  function OtcScore(ipo: IpoData): (score: int)
    ensures score in {-3, 0, 3, 6}
    ensures score != 0 ==> Truthy(ipo.otcPrice) && ipo.offerPrice.Some? && ipo.offerPrice.value > 0
    ensures score != 0 ==> ParseInt(RemoveChars(ipo.otcPrice.value, {','})).Some?
    ensures Truthy(ipo.otcPrice) && ipo.offerPrice.Some? && ipo.offerPrice.value > 0
            && ParseInt(RemoveChars(ipo.otcPrice.value, {','})).Some? ==>
      score == OtcPoints(Premium(ParseInt(RemoveChars(ipo.otcPrice.value, {','})).value, ipo.offerPrice.value))
  {
    if Truthy(ipo.otcPrice) && ipo.offerPrice.Some? && ipo.offerPrice.value != 0 then
      match ParseInt(RemoveChars(ipo.otcPrice.value, {','}))
      case None => 0
      case Some(otc) =>
        var offer := ipo.offerPrice.value;
        if offer > 0 then OtcPoints(Premium(otc, offer)) else 0
    else 0
  }

  /** The premium thresholds restated on integers: no division is needed to
      score an OTC price. */
  lemma OtcPointsIntegerRule(otc: int, offer: int)
    requires offer > 0
    ensures OtcPoints(Premium(otc, offer)) ==
      if 100 * (otc - offer) >= 160 * offer then 6
      else if 100 * (otc - offer) >= 100 * offer then 3
      else if 100 * (otc - offer) > 50 * offer then 0
      else -3
  {
    var p := Premium(otc, offer);
    var d := (otc - offer) as real;
    var o := offer as real;
    assert p * o == 100.0 * d by {
      assert (d / o) * o == d;
    }
    PremiumCompare(p, o, d, 160.0);
    PremiumCompare(p, o, d, 100.0);
    PremiumCompare(p, o, d, 50.0);
  }

  lemma PremiumCompare(p: real, o: real, d: real, t: real)
    requires o > 0.0 && p * o == 100.0 * d
    ensures p >= t <==> 100.0 * d >= t * o
    ensures p > t <==> 100.0 * d > t * o
  {
    if p >= t {
      assert p * o >= t * o;
    }
    if p > t {
      assert p * o > t * o;
    }
    if p < t {
      assert p * o < t * o;
    }
    if p <= t {
      assert p * o <= t * o;
    }
  }

  /** A premium of exactly 50% is penalised (the middle band is open at 50). */
  lemma PremiumOfFiftyPenalised(otc: int, offer: int)
    requires offer > 0 && 2 * otc == 3 * offer
    ensures OtcPoints(Premium(otc, offer)) == -3
  {
    OtcPointsIntegerRule(otc, offer);
  }

  // ----- total and grade -----

  /** The five bands of the total score. */
  datatype Band = TripleUpLikely | DoubleUpLikely | FairGain | LossCaution | HighRisk

  function BandOf(total: int): Band {
    if total >= 21 then TripleUpLikely
    else if total >= 16 then DoubleUpLikely
    else if total >= 11 then FairGain
    else if total >= 6 then LossCaution
    else HighRisk
  }

  /** The range of totals a band stands for, written independently of `BandOf`. */
  predicate InBand(total: int, b: Band) {
    match b
    case TripleUpLikely => total >= 21
    case DoubleUpLikely => 16 <= total <= 20
    case FairGain => 11 <= total <= 15
    case LossCaution => 6 <= total <= 10
    case HighRisk => total <= 5
  }

  /** Every total lies in exactly one band, the one `BandOf` picks. */
  lemma BandsPartitionTotals(total: int, b: Band)
    ensures InBand(total, b) <==> BandOf(total) == b
  {
  }

  datatype Look = Look(grade: string, description: string, colorClass: string, bgClass: string)

  function Presentation(b: Band): Look {
    match b
    case TripleUpLikely => Look("따따블 가능성 높음", "예상 수익률 160% 이상", "text-blue-600", "bg-blue-100 dark:bg-blue-900/30")
    case DoubleUpLikely => Look("따블 가능성 높음", "예상 수익률 100% 안팎", "text-emerald-600", "bg-emerald-100 dark:bg-emerald-900/30")
    case FairGain => Look("무난한 수익", "예상 수익률 50% 안팎", "text-lime-600", "bg-lime-100 dark:bg-lime-900/30")
    case LossCaution => Look("손실 주의", "손실 가능성 있음", "text-orange-500", "bg-orange-100 dark:bg-orange-900/30")
    case HighRisk => Look("청약 주의", "손실 위험 높음", "text-red-500", "bg-red-100 dark:bg-red-900/30")
  }

  /** Distinct bands show distinct grades, so the grade text names the band. */
  lemma GradeNamesBand(a: Band, b: Band)
    requires Presentation(a).grade == Presentation(b).grade
    ensures a == b
  {
  }

  /** `calculateIpoScore`. The total is the sum of the five sub-scores (the
      listing score is always 0, there being no data for it), lies in
      [-3, 31], and the grade, description and both colour classes are those
      of the total's band. */
  function CalculateIpoScore(ipo: IpoData): (r: ScoreResult)
    ensures r.details == Details(CompetitionScore(ipo), LockupScore(ipo), SupplyScore(ipo), OtcScore(ipo), 0)
    ensures r.totalScore == r.details.competitionScore + r.details.lockupScore + r.details.supplyScore
                            + r.details.otcScore + r.details.listingScore
    ensures -3 <= r.totalScore <= 31
    ensures InBand(r.totalScore, BandOf(r.totalScore))
    ensures Look(r.grade, r.description, r.colorClass, r.bgClass) == Presentation(BandOf(r.totalScore))
  {
    var d := Details(CompetitionScore(ipo), LockupScore(ipo), SupplyScore(ipo), OtcScore(ipo), 0);
    var total := d.competitionScore + d.lockupScore + d.supplyScore + d.otcScore + d.listingScore;
    var look := Presentation(BandOf(total));
    ScoreResult(total, look.grade, look.description, look.colorClass, look.bgClass, d)
  }

  /** Two IPOs with the same total get the same grade, description and colours. */
  lemma GradeDependsOnlyOnTotal(a: IpoData, b: IpoData)
    requires CalculateIpoScore(a).totalScore == CalculateIpoScore(b).totalScore
    ensures CalculateIpoScore(a).grade == CalculateIpoScore(b).grade
    ensures CalculateIpoScore(a).description == CalculateIpoScore(b).description
    ensures CalculateIpoScore(a).colorClass == CalculateIpoScore(b).colorClass
    ensures CalculateIpoScore(a).bgClass == CalculateIpoScore(b).bgClass
  {
  }
}
