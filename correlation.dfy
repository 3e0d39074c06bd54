/** The analyzer's correlation between taking a cold bath on a day and the
    total sleep of that day's night: every sleep record is paired with a 0/1
    bath indicator, and the Pearson coefficient of the two series is returned,
    with 0.0 for an empty or degenerate pairing. */
module ColdBathCorrelation {
  import opened Records
  import opened Statistics

  /** One paired observation: the night's total sleep in seconds, and 1.0 when
      a bath was taken that day, 0.0 otherwise. */
  datatype Pair = Pair(sleepDuration: real, bathIndicator: real)

  /** The days on which at least one bath was taken. */
  function BathDates(baths: seq<ColdBathRecord>): (dates: set<Date>)
    ensures forall b :: b in baths ==> b.date in dates
    ensures forall d :: d in dates ==> exists b :: b in baths && b.date == d
  {
    set b | b in baths :: b.date
  }

  /** The bath indicator of one day: 1.0 on a bath day, 0.0 on any other. */
  function Indicator(date: Date, bathDates: set<Date>): (r: real)
    ensures r == 1.0 <==> date in bathDates
    ensures r == 0.0 <==> date !in bathDates
  {
    if date in bathDates then 1.0 else 0.0
  }

  /** One pair per sleep record, in the order of the records. */
  function Pairing(sleep: seq<SleepRecord>, bathDates: set<Date>): (paired: seq<Pair>)
    ensures |paired| == |sleep|
    ensures forall i :: 0 <= i < |sleep| ==>
      paired[i].sleepDuration == sleep[i].totalSleepDuration &&
      (paired[i].bathIndicator == 1.0 <==> sleep[i].date in bathDates) &&
      (paired[i].bathIndicator == 0.0 <==> sleep[i].date !in bathDates)
  {
    seq(|sleep|, i requires 0 <= i < |sleep| =>
      Pair(sleep[i].totalSleepDuration, Indicator(sleep[i].date, bathDates)))
  }

  function SleepDurations(paired: seq<Pair>): seq<real> {
    seq(|paired|, i requires 0 <= i < |paired| => paired[i].sleepDuration)
  }

  function BathIndicators(paired: seq<Pair>): seq<real> {
    seq(|paired|, i requires 0 <= i < |paired| => paired[i].bathIndicator)
  }

  /** Each night's sleep minus the mean sleep. */
  function SleepDeviations(paired: seq<Pair>): seq<real>
    requires paired != []
  {
    Deviations(SleepDurations(paired), Mean(SleepDurations(paired)))
  }

  /** Each day's indicator minus the mean indicator. */
  function BathDeviations(paired: seq<Pair>): seq<real>
    requires paired != []
  {
    Deviations(BathIndicators(paired), Mean(BathIndicators(paired)))
  }

  /** The sum of squared sleep deviations (not divided by the count). */
  function SleepVariance(paired: seq<Pair>): (v: real)
    requires paired != []
    ensures 0.0 <= v
  {
    SumOfSquaresNonNegative(SleepDeviations(paired));
    SumOfProducts(SleepDeviations(paired), SleepDeviations(paired))
  }

  /** The sum of squared indicator deviations (not divided by the count). */
  function BathVariance(paired: seq<Pair>): (v: real)
    requires paired != []
    ensures 0.0 <= v
  {
    SumOfSquaresNonNegative(BathDeviations(paired));
    SumOfProducts(BathDeviations(paired), BathDeviations(paired))
  }

  /** The sum of the products of the two deviations (not divided by the
      count); by Cauchy–Schwarz its square is at most the product of the two
      variances. */
  function Covariance(paired: seq<Pair>): (c: real)
    requires paired != []
    ensures c * c <= SleepVariance(paired) * BathVariance(paired)
  {
    CauchySchwarz(SleepDeviations(paired), BathDeviations(paired));
    SumOfProducts(SleepDeviations(paired), BathDeviations(paired))
  }

  /** Neither series of a non-empty pairing is constant. */
  predicate NonDegenerate(paired: seq<Pair>) {
    paired != [] && SleepVariance(paired) != 0.0 && BathVariance(paired) != 0.0
  }

  /** The Pearson coefficient of a pairing; 0.0 when it is empty or either
      series is constant. */
  function Correlation(paired: seq<Pair>, sqrt: real -> real): (r: real)
    requires IsSquareRoot(sqrt)
    ensures -1.0 <= r <= 1.0
  {
    if paired == [] then 0.0
    else if SleepVariance(paired) == 0.0 || BathVariance(paired) == 0.0 then 0.0
    else
      CoefficientOfNonDegenerate(paired, sqrt);
      PearsonCoefficient(Covariance(paired), SleepVariance(paired), BathVariance(paired), sqrt)
  }

  /** The correlation between a cold bath on a day and that night's total sleep. */
  function CorrelateBathsSleep(sleep: seq<SleepRecord>, baths: seq<ColdBathRecord>,
                               sqrt: real -> real): (r: real)
    requires IsSquareRoot(sqrt)
    ensures -1.0 <= r <= 1.0
    ensures sleep == [] ==> r == 0.0
  {
    Correlation(Pairing(sleep, BathDates(baths)), sqrt)
  }

  /** When neither series is constant both variances are positive, the
      divisor is positive, and the coefficient is bounded by Cauchy–Schwarz
      and has the sign of the covariance. */
  lemma CoefficientOfNonDegenerate(paired: seq<Pair>, sqrt: real -> real)
    requires IsSquareRoot(sqrt)
    requires NonDegenerate(paired)
    ensures 0.0 < SleepVariance(paired) && 0.0 < BathVariance(paired)
    ensures 0.0 < sqrt(SleepVariance(paired)) * sqrt(BathVariance(paired))
    ensures -1.0 <= PearsonCoefficient(Covariance(paired), SleepVariance(paired), BathVariance(paired), sqrt) <= 1.0
    ensures 0.0 < PearsonCoefficient(Covariance(paired), SleepVariance(paired), BathVariance(paired), sqrt)
            <==> 0.0 < Covariance(paired)
    ensures PearsonCoefficient(Covariance(paired), SleepVariance(paired), BathVariance(paired), sqrt) < 0.0
            <==> Covariance(paired) < 0.0
  {
    PearsonBounds(SleepDeviations(paired), BathDeviations(paired), sqrt);
  }

  /** A night's indicator is 1.0 exactly when some bath was taken on the same
      day, and 0.0 exactly when none was; its sleep is the record's total. */
  lemma IndicatorIffBathOnSameDay(sleep: seq<SleepRecord>, baths: seq<ColdBathRecord>, i: int)
    requires 0 <= i < |sleep|
    ensures Pairing(sleep, BathDates(baths))[i].sleepDuration == sleep[i].totalSleepDuration
    ensures Pairing(sleep, BathDates(baths))[i].bathIndicator == 1.0
            <==> exists b :: b in baths && b.date == sleep[i].date
    ensures Pairing(sleep, BathDates(baths))[i].bathIndicator == 0.0
            <==> forall b :: b in baths ==> b.date != sleep[i].date
  {
  }

  /** The sleep variance of a non-empty pairing is zero exactly when every
      night has the same total sleep. */
  lemma SleepVarianceZeroIff(sleep: seq<SleepRecord>, bathDates: set<Date>)
    requires sleep != []
    ensures SleepVariance(Pairing(sleep, bathDates)) == 0.0
            <==> forall i :: 0 <= i < |sleep| ==> sleep[i].totalSleepDuration == sleep[0].totalSleepDuration
  {
    var xs := SleepDurations(Pairing(sleep, bathDates));
    VarianceZeroIffConstant(xs);
    assert forall i :: 0 <= i < |sleep| ==> xs[i] == sleep[i].totalSleepDuration;
  }

  /** The bath variance of a non-empty pairing is zero exactly when a bath was
      taken on the day of every night, or on the day of none. */
  lemma BathVarianceZeroIff(sleep: seq<SleepRecord>, bathDates: set<Date>)
    requires sleep != []
    ensures BathVariance(Pairing(sleep, bathDates)) == 0.0
            <==> ((forall i :: 0 <= i < |sleep| ==> sleep[i].date in bathDates) ||
                  (forall i :: 0 <= i < |sleep| ==> sleep[i].date !in bathDates))
  {
    var ys := BathIndicators(Pairing(sleep, bathDates));
    VarianceZeroIffConstant(ys);
    assert forall i :: 0 <= i < |sleep| ==> ys[i] == Indicator(sleep[i].date, bathDates);
    if forall i :: 0 <= i < |ys| ==> ys[i] == ys[0] {
      if sleep[0].date in bathDates {
        assert forall i :: 0 <= i < |sleep| ==> sleep[i].date in bathDates by {
          forall i | 0 <= i < |sleep| ensures sleep[i].date in bathDates {
            assert ys[i] == 1.0;
          }
        }
      } else {
        assert forall i :: 0 <= i < |sleep| ==> sleep[i].date !in bathDates by {
          forall i | 0 <= i < |sleep| ensures sleep[i].date !in bathDates {
            assert ys[i] == 0.0;
          }
        }
      }
    }
  }

  /** Nights that all slept equally long give 0.0, whatever the baths. */
  lemma ConstantSleepGivesZero(sleep: seq<SleepRecord>, baths: seq<ColdBathRecord>, sqrt: real -> real)
    requires IsSquareRoot(sqrt)
    requires forall i, j :: 0 <= i < |sleep| && 0 <= j < |sleep| ==>
      sleep[i].totalSleepDuration == sleep[j].totalSleepDuration
    ensures CorrelateBathsSleep(sleep, baths, sqrt) == 0.0
  {
    if sleep != [] {
      SleepVarianceZeroIff(sleep, BathDates(baths));
    }
  }

  /** A bath on the day of every night, or on the day of none, gives 0.0,
      whatever the sleep. */
  lemma SameBathStatusGivesZero(sleep: seq<SleepRecord>, baths: seq<ColdBathRecord>, sqrt: real -> real)
    requires IsSquareRoot(sqrt)
    requires (forall i :: 0 <= i < |sleep| ==> sleep[i].date in BathDates(baths))
          || (forall i :: 0 <= i < |sleep| ==> sleep[i].date !in BathDates(baths))
    ensures CorrelateBathsSleep(sleep, baths, sqrt) == 0.0
  {
    if sleep != [] {
      BathVarianceZeroIff(sleep, BathDates(baths));
    }
  }

  /** Without any bath the correlation is 0.0. */
  lemma NoBathsGivesZero(sleep: seq<SleepRecord>, sqrt: real -> real)
    requires IsSquareRoot(sqrt)
    ensures CorrelateBathsSleep(sleep, [], sqrt) == 0.0
  {
    SameBathStatusGivesZero(sleep, [], sqrt);
  }

  /** When the nights differ in sleep and some have a bath on their day while
      others do not, the correlation is positive exactly when the covariance
      is, and negative exactly when the covariance is. */
  lemma SignFollowsCovariance(sleep: seq<SleepRecord>, baths: seq<ColdBathRecord>, sqrt: real -> real)
    requires IsSquareRoot(sqrt)
    requires exists i, j ::
               0 <= i < |sleep| && 0 <= j < |sleep| &&
               sleep[i].totalSleepDuration != sleep[j].totalSleepDuration
    requires exists i, j ::
               0 <= i < |sleep| && 0 <= j < |sleep| &&
               sleep[i].date in BathDates(baths) && sleep[j].date !in BathDates(baths)
    ensures Pairing(sleep, BathDates(baths)) != []
    ensures 0.0 < CorrelateBathsSleep(sleep, baths, sqrt)
            <==> 0.0 < Covariance(Pairing(sleep, BathDates(baths)))
    ensures CorrelateBathsSleep(sleep, baths, sqrt) < 0.0
            <==> Covariance(Pairing(sleep, BathDates(baths))) < 0.0
  {
    var paired := Pairing(sleep, BathDates(baths));
    SleepVarianceZeroIff(sleep, BathDates(baths));
    BathVarianceZeroIff(sleep, BathDates(baths));
    assert NonDegenerate(paired);
    CoefficientOfNonDegenerate(paired, sqrt);
  }

  /** Only the set of bath days matters: baths given in another order, or
      with repeats, give the same correlation. */
  lemma DependsOnlyOnBathDates(sleep: seq<SleepRecord>, baths1: seq<ColdBathRecord>,
                               baths2: seq<ColdBathRecord>, sqrt: real -> real)
    requires IsSquareRoot(sqrt)
    requires forall b :: b in baths1 <==> b in baths2
    ensures CorrelateBathsSleep(sleep, baths1, sqrt) == CorrelateBathsSleep(sleep, baths2, sqrt)
  {
    assert BathDates(baths1) == BathDates(baths2);
  }

  /** The deep-sleep duration and the resting heart rate never affect the
      correlation: records that agree on date and total sleep give the same
      result. */
  lemma IgnoresOptionalFields(sleep1: seq<SleepRecord>, sleep2: seq<SleepRecord>,
                              baths: seq<ColdBathRecord>, sqrt: real -> real)
    requires IsSquareRoot(sqrt)
    requires |sleep1| == |sleep2|
    requires forall i :: 0 <= i < |sleep1| ==>
      sleep1[i].date == sleep2[i].date && sleep1[i].totalSleepDuration == sleep2[i].totalSleepDuration
    ensures CorrelateBathsSleep(sleep1, baths, sqrt) == CorrelateBathsSleep(sleep2, baths, sqrt)
  {
    assert Pairing(sleep1, BathDates(baths)) == Pairing(sleep2, BathDates(baths));
  }

  /** The three sums of a pairing do not depend on the order of the sleep
      records: a reordering gives the same means, hence the same deviations
      up to the same reordering, hence the same sums of products. */
  lemma SumsOfReorderedSleep(sleep1: seq<SleepRecord>, sleep2: seq<SleepRecord>, bathDates: set<Date>)
    requires sleep1 != []
    requires multiset(sleep1) == multiset(sleep2)
    ensures Pairing(sleep2, bathDates) != []
    ensures SleepVariance(Pairing(sleep1, bathDates)) == SleepVariance(Pairing(sleep2, bathDates))
    ensures BathVariance(Pairing(sleep1, bathDates)) == BathVariance(Pairing(sleep2, bathDates))
    ensures Covariance(Pairing(sleep1, bathDates)) == Covariance(Pairing(sleep2, bathDates))
  {
    assert |sleep1| == |multiset(sleep1)| == |multiset(sleep2)| == |sleep2|;
    var p1, p2 := Pairing(sleep1, bathDates), Pairing(sleep2, bathDates);
    var dur := (r: SleepRecord) => r.totalSleepDuration;
    var ind := (r: SleepRecord) => Indicator(r.date, bathDates);
    assert SleepDurations(p1) == Map(sleep1, dur);
    assert SleepDurations(p2) == Map(sleep2, dur);
    assert BathIndicators(p1) == Map(sleep1, ind);
    assert BathIndicators(p2) == Map(sleep2, ind);
    SumOfMapPermutation(sleep1, sleep2, dur);
    SumOfMapPermutation(sleep1, sleep2, ind);
    var ms, mb := Mean(SleepDurations(p1)), Mean(BathIndicators(p1));
    assert Mean(SleepDurations(p2)) == ms;
    assert Mean(BathIndicators(p2)) == mb;
    var dx := (r: SleepRecord) => r.totalSleepDuration - ms;
    var dy := (r: SleepRecord) => Indicator(r.date, bathDates) - mb;
    assert SleepDeviations(p1) == Map(sleep1, dx);
    assert SleepDeviations(p2) == Map(sleep2, dx);
    assert BathDeviations(p1) == Map(sleep1, dy);
    assert BathDeviations(p2) == Map(sleep2, dy);
    SumOfProductsOfMapsPermutation(sleep1, sleep2, dx, dx);
    SumOfProductsOfMapsPermutation(sleep1, sleep2, dy, dy);
    SumOfProductsOfMapsPermutation(sleep1, sleep2, dx, dy);
  }

  /** The order of the sleep records never affects the correlation: any
      reordering of the same records gives the same result. */
  lemma SleepOrderIrrelevant(sleep1: seq<SleepRecord>, sleep2: seq<SleepRecord>,
                             baths: seq<ColdBathRecord>, sqrt: real -> real)
    requires IsSquareRoot(sqrt)
    requires multiset(sleep1) == multiset(sleep2)
    ensures CorrelateBathsSleep(sleep1, baths, sqrt) == CorrelateBathsSleep(sleep2, baths, sqrt)
  {
    if sleep1 != [] {
      SumsOfReorderedSleep(sleep1, sleep2, BathDates(baths));
    } else {
      assert |sleep2| == |multiset(sleep2)| == 0;
    }
  }

  /** Any two functions that meet `IsSquareRoot` give the same correlation:
      the result does not depend on which root function is supplied. */
  lemma SquareRootChoiceIrrelevant(sleep: seq<SleepRecord>, baths: seq<ColdBathRecord>,
                                   sqrt1: real -> real, sqrt2: real -> real)
    requires IsSquareRoot(sqrt1) && IsSquareRoot(sqrt2)
    ensures CorrelateBathsSleep(sleep, baths, sqrt1) == CorrelateBathsSleep(sleep, baths, sqrt2)
  {
    var paired := Pairing(sleep, BathDates(baths));
    if paired != [] && SleepVariance(paired) != 0.0 && BathVariance(paired) != 0.0 {
      RootsAgree(sqrt1, sqrt2, SleepVariance(paired));
      RootsAgree(sqrt1, sqrt2, BathVariance(paired));
    }
  }

  /** Three nights of 8, 7 and 8 hours with a bath only on the day of the short
      night: sleep falls exactly when a bath is taken, and the correlation is
      exactly -1.0 over the reals. */
  lemma ShortNightAfterBathExample(sqrt: real -> real)
    requires IsSquareRoot(sqrt)
    ensures CorrelateBathsSleep(
              [SleepRecord(Date(2024, 1, 1), 28800.0, None, None),
               SleepRecord(Date(2024, 1, 2), 25200.0, None, None),
               SleepRecord(Date(2024, 1, 3), 28800.0, None, None)],
              [ColdBathRecord(Date(2024, 1, 2))],
              sqrt) == -1.0
  {
    var sleep := [SleepRecord(Date(2024, 1, 1), 28800.0, None, None),
                  SleepRecord(Date(2024, 1, 2), 25200.0, None, None),
                  SleepRecord(Date(2024, 1, 3), 28800.0, None, None)];
    var baths := [ColdBathRecord(Date(2024, 1, 2))];
    assert BathDates(baths) == {Date(2024, 1, 2)};
    var paired := Pairing(sleep, BathDates(baths));
    assert paired == [Pair(28800.0, 0.0), Pair(25200.0, 1.0), Pair(28800.0, 0.0)];
    var xs, ys := SleepDurations(paired), BathIndicators(paired);
    assert xs == [28800.0, 25200.0, 28800.0];
    assert ys == [0.0, 1.0, 0.0];
    SumOfThree(28800.0, 25200.0, 28800.0);
    SumOfThree(0.0, 1.0, 0.0);
    assert Mean(xs) == 27600.0;
    assert Mean(ys) == 1.0 / 3.0;
    var dx, dy := SleepDeviations(paired), BathDeviations(paired);
    assert dx == [1200.0, -2400.0, 1200.0];
    assert dy == [-1.0 / 3.0, 2.0 / 3.0, -1.0 / 3.0];
    SumOfProductsOfThree(1200.0, -2400.0, 1200.0, 1200.0, -2400.0, 1200.0);
    SumOfProductsOfThree(-1.0 / 3.0, 2.0 / 3.0, -1.0 / 3.0, -1.0 / 3.0, 2.0 / 3.0, -1.0 / 3.0);
    SumOfProductsOfThree(1200.0, -2400.0, 1200.0, -1.0 / 3.0, 2.0 / 3.0, -1.0 / 3.0);
    assert SleepVariance(paired) == 8640000.0;
    assert BathVariance(paired) == 2.0 / 3.0;
    assert Covariance(paired) == -2400.0;
    ProductOfRoots(8640000.0, 2.0 / 3.0, 2400.0, sqrt);
  }
}
