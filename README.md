# Cold baths and sleep: the correlation core

The analyzer in `oura_garmin_analyzer.py` fetches nightly sleep summaries from
a ring tracker, reads the days on which cold baths were taken, and reports how
strongly taking a bath on a day goes with that night's total sleep. This
project models the part that computes that number, `correlate_baths_sleep`,
together with the two records it consumes, and proves what the number means.

- `records.dfy` (module `Records`): the `SleepRecord` and `ColdBathRecord`
  dataclasses as datatypes. A date is a `Date(year, month, day)` value that the
  model only compares for equality, as the source does. The two optional fields
  of a sleep record (deep sleep and resting heart rate) are carried as
  `Option<real>` (oura_garmin_analyzer.py:30-39). Datatypes carry no
  contract of their own. `IgnoresOptionalFields` states what the model relies
  on about their fields.
- `statistics.dfy` (module `Statistics`): sums over exact reals. This covers the
  plain sum, the mean, deviations from a mean, and sums of products of two
  deviation series. It also holds the facts that make the result a correlation:
  a sum of squares is non-negative and is zero exactly when every term is zero,
  a series has zero spread exactly when it is constant, and the Cauchy–Schwarz
  inequality holds. From these it follows that the coefficient lies in [-1, 1]
  and has the sign of the covariance.
- `correlation.dfy` (module `ColdBathCorrelation`): the pairing of every sleep
  record with a 0/1 indicator for "some bath on that day". It also holds the
  three sums the source computes, the degenerate-case guards, and the
  coefficient, plus lemmas about the whole computation.

The source's `var_sleep`, `var_bath` and `cov` are sums of squared (or
multiplied) deviations, not divided by the count. The model keeps them that
way under the names `SleepVariance`, `BathVariance` and `Covariance`. The
source divides `cov` by `var_sleep ** 0.5 * var_bath ** 0.5`, the product of
the two roots. The model does the same: `PearsonCoefficient` is
`cov / (sqrt(varX) * sqrt(varY))`. Taking the root of the product of the two
variances would give the same value over the reals.

Python's `** 0.5` becomes a parameter `sqrt: real -> real` of every member that
needs it. Such a member requires `IsSquareRoot(sqrt)`: for every non-negative
`v`, `sqrt(v)` is non-negative and squares back to `v`. Every result is
proved for any such function.

## Model

| member | source | states |
|---|---|---|
| `ColdBathCorrelation.BathDates` | oura_garmin_analyzer.py:88 | every bath's date is a bath day, and every bath day is the date of some bath |
| `ColdBathCorrelation.Pairing` | oura_garmin_analyzer.py:89-91 | one pair per sleep record, in record order; each pair holds the record's total sleep, and its indicator is 1.0 exactly when the record's date is a bath day and 0.0 exactly when it is not |
| `ColdBathCorrelation.IndicatorIffBathOnSameDay` | oura_garmin_analyzer.py:88-91 | a night's indicator is 1.0 if and only if some bath record has the same date, and 0.0 if and only if none has |
| `ColdBathCorrelation.Correlation` | oura_garmin_analyzer.py:92-101 | whatever the pairing, the result lies in [-1, 1] |
| `ColdBathCorrelation.CorrelateBathsSleep` | oura_garmin_analyzer.py:84-101 | the result lies in [-1, 1], and it is 0.0 when there are no sleep records |
| `ColdBathCorrelation.CoefficientOfNonDegenerate` | oura_garmin_analyzer.py:96-101 | when neither variance is zero, both are positive, the divisor is positive, and the quotient lies in [-1, 1] and is positive (negative) exactly when the covariance is |
| `ColdBathCorrelation.SleepVarianceZeroIff` | oura_garmin_analyzer.py:94-96 | for non-empty sleep, the sleep variance is zero if and only if every night has the same total sleep |
| `ColdBathCorrelation.BathVarianceZeroIff` | oura_garmin_analyzer.py:95-97 | for non-empty sleep, the bath variance is zero if and only if every night's date is a bath day, or none is |
| `ColdBathCorrelation.ConstantSleepGivesZero` | oura_garmin_analyzer.py:96-100 | nights that all slept equally long give 0.0, whatever the baths |
| `ColdBathCorrelation.SameBathStatusGivesZero` | oura_garmin_analyzer.py:97-100 | a bath on the day of every night, or on the day of none, gives 0.0, whatever the sleep |
| `ColdBathCorrelation.NoBathsGivesZero` | oura_garmin_analyzer.py:88-100 | with no bath records the result is 0.0 |
| `ColdBathCorrelation.SignFollowsCovariance` | oura_garmin_analyzer.py:98-101 | when the nights differ in sleep and only some of them have a bath on their day, the result is positive exactly when the covariance is, and negative exactly when it is |
| `ColdBathCorrelation.DependsOnlyOnBathDates` | oura_garmin_analyzer.py:88 | two bath lists holding the same records, in any order and with any repeats, give the same result |
| `ColdBathCorrelation.IgnoresOptionalFields` | oura_garmin_analyzer.py:30-35 | sleep records that agree on date and total sleep give the same result, whatever their deep-sleep and resting-heart-rate fields |
| `ColdBathCorrelation.Indicator` | oura_garmin_analyzer.py:90 | a day's indicator is 1.0 if and only if the day is a bath day, and 0.0 if and only if it is not |
| `ColdBathCorrelation.SleepVariance` | oura_garmin_analyzer.py:96 | the sum of squared sleep deviations is never negative |
| `ColdBathCorrelation.BathVariance` | oura_garmin_analyzer.py:97 | the sum of squared indicator deviations is never negative |
| `ColdBathCorrelation.Covariance` | oura_garmin_analyzer.py:98 | the square of the covariance is at most the product of the two variances |
| `ColdBathCorrelation.SleepOrderIrrelevant` | oura_garmin_analyzer.py:89-101 | two sleep lists holding the same records in different orders give the same result |
| `ColdBathCorrelation.SumsOfReorderedSleep` | oura_garmin_analyzer.py:94-98 | reordering the sleep records leaves the sleep variance, the bath variance and the covariance unchanged |
| `ColdBathCorrelation.SquareRootChoiceIrrelevant` | oura_garmin_analyzer.py:101 | any two functions that are non-negative square roots give the same result |
| `ColdBathCorrelation.ShortNightAfterBathExample` | oura_garmin_analyzer.py:84-101 | nights of 28800, 25200 and 28800 seconds, with a bath only on the second day, give exactly -1.0 over the reals |
| `Statistics.Mean` | oura_garmin_analyzer.py:94-95 | the mean of a non-empty series, multiplied by the series' length, is its sum |
| `Statistics.PearsonCoefficient` | oura_garmin_analyzer.py:101 | the coefficient, multiplied by the product of the two roots, gives back the covariance |
| `Statistics.SumOfMapPermutation` | oura_garmin_analyzer.py:94-95 | two sequences with the same elements, in any order, give the same sum of any per-element value |
| `Statistics.SumOfProductsOfMapsPermutation` | oura_garmin_analyzer.py:96-98 | two sequences with the same elements, in any order, give the same sum of products of any two per-element values |
| `Statistics.RootsAgree` | oura_garmin_analyzer.py:101 | two functions that are non-negative square roots agree on every non-negative number |
| `Statistics.MeanOfConstant` | oura_garmin_analyzer.py:94-95 | the mean of a non-empty series whose every element is `c` is `c` |
| `Statistics.SumOfSquaresNonNegative` | oura_garmin_analyzer.py:96-97 | a sum of squared deviations is never negative |
| `Statistics.SumOfSquaresPositiveIff` | oura_garmin_analyzer.py:96-97 | a sum of squares is positive if and only if some term is not zero |
| `Statistics.VarianceZeroIffConstant` | oura_garmin_analyzer.py:94-97 | a non-empty series has zero squared deviation from its mean if and only if all its elements are equal |
| `Statistics.CauchySchwarz` | oura_garmin_analyzer.py:96-98 | the square of the sum of products of two deviation series is at most the product of their sums of squares |
| `Statistics.CoefficientBounds` | oura_garmin_analyzer.py:101 | for positive variances that bound the covariance as Cauchy–Schwarz does, the product of the roots is positive and the coefficient lies in [-1, 1] with the sign of the covariance |
| `Statistics.PearsonBounds` | oura_garmin_analyzer.py:96-101 | for two deviation series whose sums of squares are not zero, those sums are positive and the coefficient lies in [-1, 1] with the sign of the sum of products |
| `Statistics.ProductOfRoots` | oura_garmin_analyzer.py:101 | the product of the roots of two positive numbers is the positive number whose square is their product |

## Left out

- `fetch_oura_sleep` (oura_garmin_analyzer.py:42-64): HTTP requests to the tracker's web API and JSON decoding. This is I/O. The model starts from the resulting list of sleep records.
- `fetch_garmin_activity` (oura_garmin_analyzer.py:67-71): a placeholder that always raises `NotImplementedError`. It has no behaviour to model.
- `load_cold_baths` (oura_garmin_analyzer.py:74-81): reads bath dates from a CSV file. This is I/O. The model starts from the resulting list of bath records.
- `main` and the credential and endpoint constants (oura_garmin_analyzer.py:22-28, 104-110): the date window from today's clock, the calls above, and printing. These are configuration and I/O.
- Classification of workout sessions into bath days by time of day and duration does not occur in `oura_garmin_analyzer.py`, where bath days come only from the CSV file. There is nothing in the source to model.
- Floating point: the model computes over exact reals. Python's float rounding is not modelled. In particular, the mean of identical floats can round, so the guard `var_sleep == 0` could in principle fail for constant durations where the model's does not. The bound [-1, 1] is likewise exact only over the reals.
- Square root: `** 0.5` is a parameter that is only required to be the non-negative root. The float rounding of Python's power operator is not modelled.
- The 0/1 indicator is an `int` in the source and is promoted to a float in the sums. The model stores it as the real 1.0 or 0.0 from the start.
- Python's `date` type becomes a year-month-day triple. Only its equality is used, which matches the source's use of a date as a set element.
