# Lottery core in Dafny

A model of the core of the Lottery app, a Swift program for the Polish Lotto
and Mini Lotto games. It reads the history of draws, ages every number (how
many draws ago it last came out), summarises the ages per sorted position over
a window of draws (mean and standard deviation), turns those summaries into
bands of acceptable ages, and generates coupons whose numbers fall in those
bands. It also keeps a co-occurrence ("best friends") model of the draws,
filters generated coupons that are too close to each other, and drives two
small user-interface state machines: the coupon generator screen and the
editor of a single past number.

Modules, one per source file or group of copies of one file:

| module | models |
|---|---|
| `Wrappers`, `Sequences`, `Sorting` | Swift's `Optional`, `Result`, `filter`, `map`, `sorted(by:)` |
| `DrawTypes` | both copies of the `DrawType` enum and their `Rules` |
| `Numbers`, `DomainNumbers`, `SingleNumberInfos` | the number value types and the past-number editor |
| `Results`, `LegacyResults`, `LottoResults`, `MiniLottoResults`, `Text` | draw records, their parsing from text lines, Swift's `Int(String)` |
| `RangesOfInterest` | the window of draws a statistic is computed over |
| `Aging` | the aging engine (`AgingHelper`), imperative, over arrays of numbers |
| `Statistics`, `StatisticsHandler`, `PackageStatisticsHandler` | mean and deviation per position, on exact reals |
| `StatisticsComparators`, `Bands` | the comparison record and the bands derived from a statistic |
| `AgesPerPosition`, `ResultsDataRevision` | the two revisions of the per-position model (statistics, compliance check, coupons) |
| `CouponGenerators`, `ResultRandomizers`, `CouponControllers` | coupon generation, random draws within bands, distance filtering |
| `BestFriends` | the co-occurrence table, its training and scoring |
| `CouponGeneratorViewModels` | the coupon generator screen's state machine |

Conventions. Swift's `randomElement()` is a nondeterministic choice (`:|`).
Where the source retries until a random choice succeeds, the outcome is a
`Run` value: `Returned` with the result, `Trapped` where Swift would stop with
a runtime error, or `Diverged` where it would retry for ever. `UUID()` is a
fresh natural number, a date is an integer, `Date.now` and the date parser are
parameters. Square roots are a parameter `sqrt` whose results are required to
be non-negative square roots.

## Model

| member | source | states |
|---|---|---|
| DrawTypes.StringKey | Lottery/Domain/DrawType.swift:13-20 | the storage key of a game is one of the two literal keys, at least five characters long |
| DrawTypes.ValidNumbersCount | Lottery/Domain/DrawType.swift:22-29 | a draw holds 6 (Lotto) or 5 (Mini Lotto) numbers, never fewer than one |
| DrawTypes.ValidNumberMaxValue | Lottery/Domain/DrawType.swift:31-38 | the largest number (49 or 42) exceeds the count, so a draw of distinct numbers exists |
| DrawTypes.SourceFileName | Lottery/Domain/DrawType.swift:40-42 | the data file name is the game key followed by `.txt` |
| DrawTypes.RulesOf | Lottery/Draw/Sources/Draw/DrawType.swift:22-38 | both games (in either copy of the enum) yield a valid draw configuration |
| DrawTypes.StringKeyInjective | Lottery/Domain/DrawType.swift:13-42 | two games share a key, and a data file, exactly when they are the same game |
| DrawTypes.LottoDominatesMiniLotto | Lottery/Domain/DrawType.swift:22-38 | Lotto draws one number more than Mini Lotto, from a larger pool |
| Numbers.Empty | Lottery/DataTypes/Number.swift:19-21 | the placeholder number has value 0, no age, and the identifier it is given |
| Numbers.EqualityCoversId | Lottery/DataTypes/Number.swift:10-17 | synthesized equality compares id, value and age, so equal values with different ids differ |
| Numbers.LessIsStrictWeakOrder | Lottery/DataTypes/Number.swift:12-14 | `<` (greater value ranks first) is irreflexive, asymmetric, transitive, with equal values incomparable |
| Numbers.SortedDescendingIsSortedByLess | Lottery/DataTypes/Number.swift:12-14 | a sequence sorted under `<` is exactly one whose values never increase |
| DomainNumbers.EmptyDrawResultNumber | Lottery/Domain/Number.swift:26-28 | the placeholder drawn number has value 0 |
| DomainNumbers.LessIsStrictOrderByValue | Lottery/Domain/Number.swift:45-48 | `AgedNumber.<` is a strict order on the value alone, ignoring ages, and agrees with `DrawResultNumber.<` |
| DomainNumbers.CompareByAge | Lottery/Domain/Number.swift:50-55 | throws `compareWithAgeEmpty` exactly when either age is unknown; otherwise answers whether the left age is smaller |
| DomainNumbers.EmptyAgedNumber | Lottery/Domain/Number.swift:60-62 | the placeholder aged number has value 0 and the known age 0 (not an unknown age) |
| DomainNumbers.NewBestFriendNumber | Lottery/Domain/Number.swift:31-33 | a new number keeps its value and has a zero weight for each of the `validNumberMaxValue` values |
| DomainNumbers.EmptyBestFriendNumber | Lottery/Domain/Number.swift:35-37 | the placeholder has value 0 and all weights zero |
| DomainNumbers.AddFriend | Lottery/Domain/Number.swift:39-42 | adding itself changes nothing; otherwise exactly the weight at `friendValue - 1` grows by the factor and every other weight is kept |
| DomainNumbers.AddFriendAccumulates | Lottery/Domain/Number.swift:39-42 | two additions for the same friend add both factors |
| DomainNumbers.AnyNumber.AgeIfAged | Lottery/CouponGenerator/Sources/CouponGenerator/Statistics/StatisticsHandler.swift:31 | `($0 as? AgedNumber)?.age` yields an age exactly for aged numbers whose age is known |
| DomainNumbers.AgedAges | Lottery/CouponGenerator/Sources/CouponGenerator/Statistics/StatisticsHandler.swift:31 | one optional age per number of the draw, in order |
| DomainNumbers.UpdateAt | Lottery/Domain/Number.swift:70-72 | writing `array[number]` replaces the entry at `value - 1` and no other |
| DomainNumbers.AtUpdateAt | Lottery/Domain/Number.swift:65-74 | reading back through the same number gives what was written; other values read as before |
| RangesOfInterest.RangeOfInterest.EndIdx | Lottery/CouponGenerator/Sources/CouponGenerator/ResultsRangeOfInterest.swift:14-16 | the end index is never negative: it is `startingIdx + length - 1` or, when that is not positive, 0 |
| RangesOfInterest.RangeOfInterest.Window | Lottery/Domain/StatisticsHandler.swift:28 | the closed-range slice has `endIdx - startingIdx + 1` draws, draw i being `results[startingIdx + i]` |
| RangesOfInterest.Init | Lottery/CouponGenerator/Sources/CouponGenerator/ResultsRangeOfInterest.swift:18-21 | the initializer stores both values unchanged |
| RangesOfInterest.WindowLength | Lottery/CouponGenerator/Sources/CouponGenerator/ResultsRangeOfInterest.swift:14-16 | a window of positive length starting at or after 0 spans exactly `length` draws |
| RangesOfInterest.ZeroLengthWindowAtStart | Lottery/CouponGenerator/Sources/CouponGenerator/ResultsRangeOfInterest.swift:14-25 | the window (0, 0) ends at 0 and scans just the newest draw |
| RangesOfInterest.EmptyHistoryRejectsWindow | Lottery/CouponGenerator/Sources/CouponGenerator/ResultsRangeOfInterest.swift:23-25 | a 100-draw window is refused on an empty history |
| RangesOfInterest.CorrectedScopeIsInBounds | Lottery/CouponGenerator/Sources/CouponGenerator/ResultsRangeOfInterest.swift:23-25 | the corrected check holds exactly when the slice is in bounds, and differs from the written one only when the window ends on the count |
| RangesOfInterest.ScopeCheckAdmitsWindowPastEnd | Lottery/CouponGenerator/Sources/CouponGenerator/ResultsRangeOfInterest.swift:23-25 | the written check accepts the one-draw window (0, 1) on an empty history, whose slice is out of bounds |
| RangesOfInterest.SliceTrapsOnlyAtCount | Lottery/CouponGenerator/Sources/CouponGenerator/ResultsRangeOfInterest.swift:23-25 | an accepted window of positive length traps at the slice exactly when its end index equals the count |
| StatisticsComparators.NewStatisticsComparatorData | Lottery/Domain/StatisticsComparatorData.swift:17-25 | the initializer throws `wrongStatisticsComparatorData` exactly when the hits exceed the number count; otherwise it stores the four fields |
| StatisticsComparators.AcceptedHits | Lottery/Domain/StatisticsComparatorData.swift:18-20 | a full hit count is accepted, one more is refused, and a negative count is not refused |
| Statistics.StandardDeviation | Lottery/Domain/StatisticsHandler.swift:55-61 | `stddev:` is the non-negative square root of the population variance |
| Statistics.VarianceNonNegative | Lottery/Domain/StatisticsHandler.swift:55-61 | the population variance is never negative, so its root exists |
| Statistics.SingleValue | Lottery/Domain/StatisticsHandler.swift:55-70 | one value is its own average and has deviation 0 |
| Statistics.TwoValues | Lottery/Domain/StatisticsHandler.swift:55-70 | two values average to their midpoint and deviate by half their distance |
| Statistics.MeanWithin | Lottery/Domain/StatisticsHandler.swift:63-69 | an average lies between any lower and upper bound of its values |
| Statistics.Round | Lottery/Models/AgesPerPosition/AgesPerPositionResults.swift:55-56 | `round` lands within one half of its argument and is not negative for a non-negative argument |
| Statistics.RoundMonotone | Lottery/Models/AgesPerPosition/AgesPerPositionResults.swift:55-56 | rounding never reverses an order |
| Statistics.RoundOfInteger | Lottery/Models/AgesPerPosition/AgesPerPositionResults.swift:55-56 | rounding an integer gives it back |
| Statistics.BandFor | Lottery/Models/AgesPerPosition/AgesPerPositionResults.swift:52-56 | the band's bottom is never negative, and for a non-negative average and spread it is not above the top |
| Statistics.BandWidens | Lottery/Models/AgesPerPosition/AgesPerPositionResults.swift:52-56 | a larger deviation factor never narrows the band at either end |
| Statistics.SortedAges | Lottery/Domain/StatisticsHandler.swift:29 | the known ages of a draw, ascending, each as often as it occurs |
| Statistics.ValidRows | Lottery/Domain/StatisticsHandler.swift:30 | keeps only age lists of the required length, each from the input, and every such list of the input |
| Statistics.ValidRowsCount | Lottery/Domain/StatisticsHandler.swift:30 | each age list of the required length is kept as many times as it occurs, every other list is dropped |
| Statistics.ValidRowsConcat | Lottery/Domain/StatisticsHandler.swift:30 | the filter keeps the order of the draws: filtering a concatenation concatenates the filtered parts |
| Statistics.Column | Lottery/Domain/StatisticsHandler.swift:41 | the entries of every row at one position, in row order |
| Statistics.PositionStatistics | Lottery/Domain/StatisticsHandler.swift:36-52 | one average and one non-negative deviation per position |
| Statistics.AveragesAndDeviations | Lottery/Domain/StatisticsHandler.swift:36-52 | the position loop yields, position by position, the mean and deviation of that position's column |
| Statistics.SingleRowStatistics | Lottery/Domain/StatisticsHandler.swift:36-52 | over one draw the averages are that draw's ages and every deviation is 0 |
| Statistics.TwoRowStatistics | Lottery/Domain/StatisticsHandler.swift:36-52 | over two draws each position averages to the midpoint and deviates by half the distance |
| Bands.Hits | Lottery/Models/AgesPerPosition/AgesPerPositionResults.swift:129-141 | the hit count never exceeds the number of ages scored |
| Bands.CountHits | Lottery/Models/AgesPerPosition/AgesPerPositionResults.swift:129-141 | the scoring loop counts the positions whose age lies in that position's band |
| Bands.BandNumbers | Lottery/Models/AgesPerPosition/AgesPerPositionResults.swift:58-63 | keeps exactly the numbers, from the input, whose known age lies in the band |
| Bands.BandNumbersNone | Lottery/Models/AgesPerPosition/AgesPerPositionResults.swift:58-63 | when no age lies in the band nothing is kept |
| Bands.BandValues | Lottery/Models/AgesPerPosition/AgesPerPositionResults.swift:99 | the kept numbers' values, ascending, each as often as it occurs |
| Bands.BandValuesMembers | Lottery/Models/AgesPerPosition/AgesPerPositionResults.swift:58-100 | a value is in a position's list exactly when a number with that value has a known age in that position's band |
| Bands.PickCoupon | Lottery/Models/AgesPerPosition/AgesPerPositionResults.swift:75-80 | one pass picks one value per position from its list, none twice; it traps on a missing or empty list, and it returns when each list has more distinct values than the positions before it |
| Bands.PickedCouponIncreasing | Lottery/Models/AgesPerPosition/AgesPerPositionResults.swift:75-81 | a sorted pick is strictly ascending and has one value per position |
| Bands.AppendSortedPick | Lottery/Models/AgesPerPosition/AgesPerPositionResults.swift:79-83 | appending a sorted pick keeps every coupon a strictly ascending sorted pick |
| AgesPerPosition.AgesPerPositionResults.GetNumbersFullfiling | Lottery/Models/AgesPerPosition/AgesPerPositionResults.swift:49-65 | returns the position's band and exactly the numbers aged from the window start whose known age lies in it, in stored order |
| AgesPerPosition.AgesPerPositionResults.NoAgeInBand | Lottery/Models/AgesPerPosition/AgesPerPositionResults.swift:58-64 | when no age reaches the band, no number is offered for that position |
| AgesPerPosition.AgesPerPositionResults.GetNumbers | Lottery/Models/AgesPerPosition/AgesPerPositionResults.swift:88-103 | no statistics gives no lists; otherwise one list per position, each the ascending band values |
| AgesPerPosition.AgesPerPositionResults.Lists | Lottery/Models/AgesPerPosition/AgesPerPositionResults.swift:93-101 | one list per position of the draw, each that position's band values |
| AgesPerPosition.AgesPerPositionResults.ListMembers | Lottery/Models/AgesPerPosition/AgesPerPositionResults.swift:95-100 | each list is ascending and holds exactly the values of numbers whose known age lies in that position's band |
| AgesPerPosition.AgesPerPositionResults.ComparedAges | Lottery/Models/AgesPerPosition/AgesPerPositionResults.swift:118-119 | the scored draw's known ages, ascending |
| AgesPerPosition.AgesPerPositionResults.CheckResultComplianceWithStats | Lottery/Models/AgesPerPosition/AgesPerPositionResults.swift:105-162 | never throws; without statistics, a window or an earlier draw it is empty; otherwise it is exactly `Compliance` over the factors 0.5, 0.6, 0.7, 0.8 from no entries and the levels n-2...n; each entry has a hit level from n-2 to n, taken from the factor that produced it, with distinct levels and rising factors; only the last entry may be a full hit; at most three entries |
| AgesPerPosition.AgesPerPositionResults.PrepareCoupon | Lottery/Models/AgesPerPosition/AgesPerPositionResults.swift:67-86 | traps exactly without statistics (`getNumbers` gives no list to subscript), with fewer than one coupon asked for (`0...couponsCount - 1`) or when some position's list is empty (`randomElement()!`), and then an attempt picks every position before the first empty list; never diverges when the retry loops can end; a returned batch is `couponsCount` different coupons, each a sorted pick of one band value per position, strictly ascending |
| AgesPerPosition.AtMostThreeEntries | Lottery/Models/AgesPerPosition/AgesPerPositionResults.swift:123-125 | with distinct hit levels drawn from three values there are at most three entries |
| AgesPerPosition.FirstEmpty | Lottery/Models/AgesPerPosition/AgesPerPositionResults.swift:75-77 | the first position whose list is empty, where `randomElement()!` traps, every earlier list non-empty |
| AgesPerPosition.PicksReach | Lottery/Models/AgesPerPosition/AgesPerPositionResults.swift:75-79 | when the inner retry loops of the first `m` positions always end, some attempt picks those `m` positions, so it reaches position `m` |
| AgesPerPosition.RemoveAll | Lottery/Models/AgesPerPosition/AgesPerPositionResults.swift:155 | `removeAll { $0 == consitency }`: exactly the other levels remain, and none is added |
| AgesPerPosition.HitLevels | Lottery/Models/AgesPerPosition/AgesPerPositionResults.swift:122 | the three hit levels `n-2...n` |
| AgesPerPosition.Compliance | Lottery/Models/AgesPerPosition/AgesPerPositionResults.swift:126-160 | the factor loop as a recursion over the remaining factors: it keeps the entries already made as a prefix and adds at most one entry per factor |
| AgesPerPosition.ComplianceShape | Lottery/Models/AgesPerPosition/AgesPerPositionResults.swift:126-160 | from no entries, every entry of the loop has a level from n-2 to n reached by its own factor, the levels are distinct, the factors rise, and only the last entry may be a full hit |
| AgesPerPosition.ComplianceBelowLevels | Lottery/Models/AgesPerPosition/AgesPerPositionResults.swift:142-145 | when no factor reaches `n-2` hits, the loop adds nothing |
| AgesPerPosition.FullHitStops | Lottery/Models/AgesPerPosition/AgesPerPositionResults.swift:151-158 | a full hit at the first factor gives that single entry and stops the loop |
| AgesPerPosition.Init | Lottery/Models/AgesPerPosition/AgesPerPositionResults.swift:28-40 | the initializer stores its inputs, takes its statistics from the age-statistics handler and rethrows exactly that handler's error |
| ResultsDataRevision.ResultsData.constructor | Lottery/DataTypes/ResultsData.swift:26-33 | stores the four inputs, with no statistics yet |
| ResultsDataRevision.ResultsData.UpdatePositionsStatistics | Lottery/DataTypes/ResultsData.swift:155-189 | throws exactly when the age-statistics function refuses the window; sets the statistics when that function yields some and otherwise leaves them unchanged |
| ResultsDataRevision.ResultsData.Init | Lottery/DataTypes/ResultsData.swift:26-35 | the initializer stores its inputs, then holds exactly the window's statistics or rethrows the scope error |
| ResultsDataRevision.ResultsData.GetNumbersFullfiling | Lottery/DataTypes/ResultsData.swift:44-60 | returns the position's band and exactly the numbers aged from the window start whose known age lies in it |
| ResultsDataRevision.ResultsData.Lists | Lottery/DataTypes/ResultsData.swift:83-91 | six lists, one per position `0...5`, each that position's band values |
| ResultsDataRevision.ResultsData.ListMembers | Lottery/DataTypes/ResultsData.swift:85-90 | each list is ascending and holds exactly the values of numbers whose known age lies in that position's band |
| ResultsDataRevision.ResultsData.GetNumbers | Lottery/DataTypes/ResultsData.swift:78-93 | no statistics gives no lists; otherwise the six band lists |
| ResultsDataRevision.ResultsData.ComparedAges | Lottery/DataTypes/ResultsData.swift:108-109 | the scored draw's known ages, ascending |
| ResultsDataRevision.ResultsData.CheckResultComplianceWithStats | Lottery/DataTypes/ResultsData.swift:95-153 | never throws and yields at most one entry: the factor-0.5 hit count, kept exactly when it is at least 4 |
| ResultsDataRevision.ResultsData.PrepareCoupon | Lottery/DataTypes/ResultsData.swift:62-76 | traps without statistics, with fewer than six positions or with no coupon asked for; when it returns, `couponsCount` strictly ascending sorted picks; returns whenever each list has more distinct values than the positions before it |
| StatisticsHandler.AgesOfInterest | Lottery/Domain/StatisticsHandler.swift:29 | one age row per draw of the window, each that draw's known ages in ascending order |
| StatisticsHandler.ValidAges | Lottery/Domain/StatisticsHandler.swift:28-30 | every row kept has exactly the required number of ages, ascending |
| StatisticsHandler.AgeStatistics | Lottery/Domain/StatisticsHandler.swift:17-53 | no window gives nil; a window of length 0 or failing the scope check throws `wrongRangeOfInterestScope`, and only then; nil exactly when no draw of the window is well formed; otherwise one average and deviation per position over the well-formed rows |
| StatisticsHandler.UpdateAgeStatistics | Lottery/Domain/StatisticsHandler.swift:17-53 | the guards and the position loop compute exactly the age statistics above |
| StatisticsHandler.WindowFiveTwo | Lottery/Domain/StatisticsHandler.swift:28 | the window (5, 2) reads draws 5 and 6 and nothing else |
| StatisticsHandler.OneDrawWindow | Lottery/Domain/StatisticsHandler.swift:28-52 | over a one-draw window the averages are that draw's sorted ages and every deviation is 0 |
| StatisticsHandler.TwoDrawWindowRows | Lottery/Domain/StatisticsHandler.swift:28-32 | a window of two well-formed draws keeps both age rows |
| StatisticsHandler.TwoDrawWindow | Lottery/Domain/StatisticsHandler.swift:28-52 | over a two-draw window each position averages to the midpoint of the two ages and deviates by half their distance |
| StatisticsHandler.TwoDrawExample | Lottery/Domain/StatisticsHandler.swift:36-52 | ages 1, 5, 7, 12, 16, 21 and 3, 11, 13, 14, 18, 25 give averages 2, 8, 10, 13, 17, 23 and deviations 1, 3, 3, 1, 1, 2 |
| PackageStatisticsHandler.PackageAgeStatistics | Lottery/CouponGenerator/Sources/CouponGenerator/Statistics/StatisticsHandler.swift:17-55 | an empty history throws `emptyResults` and only it does; otherwise a refused window throws `wrongRangeOfInterestScope`, nil exactly when no draw is well formed, else the per-position statistics |
| PackageStatisticsHandler.EmptyBeforeScope | Lottery/CouponGenerator/Sources/CouponGenerator/Statistics/StatisticsHandler.swift:21-27 | an empty history is reported as such whatever the window |
| PackageStatisticsHandler.OnlyKnownAgedNumbersCount | Lottery/CouponGenerator/Sources/CouponGenerator/Statistics/StatisticsHandler.swift:31 | a draw contributes at most one age per number, and none when it holds no aged number |
| PackageStatisticsHandler.UpdateAgeStatistics | Lottery/CouponGenerator/Sources/CouponGenerator/Statistics/StatisticsHandler.swift:17-55 | the guards and the position loop compute exactly the package's age statistics |
| Aging.FirstAge | Lottery/Models/AgesPerPosition/Helpers/AgingHelper.swift:30-42 | the age found for a value is the position of the first scanned draw holding it, or none if no draw does |
| Aging.FirstAgeOfPrefix | Lottery/Models/AgesPerPosition/Helpers/AgingHelper.swift:34-39 | once a value has been aged in a prefix, scanning further draws keeps that age |
| Aging.Scanned | Lottery/Models/AgesPerPosition/Helpers/AgingHelper.swift:23-28 | with a window the scan covers `results[startingIdx...endIdx]`, counted from `startingIdx`; without one, the whole history |
| Aging.AgedNumbersBasedOn | Lottery/Models/AgesPerPosition/Helpers/AgingHelper.swift:16-45 | exactly `validNumberMaxValue` entries, entry k for value k + 1, whose age is the first age of that value in the scanned draws (none on an empty input), the early return included |
| Aging.ScanCompletesEarly | Lottery/Models/AgesPerPosition/Helpers/AgingHelper.swift:37-39 | once every value is aged, the table already equals the one a full scan gives |
| Aging.FirstDrawIsAgeZero | Lottery/Models/AgesPerPosition/Helpers/AgingHelper.swift:30-35 | every value of the first scanned draw has age 0 |
| Aging.FirstIndexFrom | Lottery/Models/AgesPerPosition/Helpers/AgingHelper.swift:67-69 | the index, in the whole history, of the first draw from `from` on holding the value, or none |
| Aging.Gap | Lottery/Models/AgesPerPosition/Helpers/AgingHelper.swift:65-75 | the age of a value in draw i is the number of draws strictly between i and the next older draw holding it, or none if there is none |
| Aging.GapIsAgeInOlderDraws | Lottery/Models/AgesPerPosition/Helpers/AgingHelper.swift:65-75 | that gap is the age the first scan gives the value over the draws older than i |
| Aging.OldestDrawHasNoAges | Lottery/Models/AgesPerPosition/Helpers/AgingHelper.swift:59-63 | every number of the oldest draw has no age |
| Aging.AgedResultsBasedOn | Lottery/Models/AgesPerPosition/Helpers/AgingHelper.swift:47-86 | throws `wrongNumbersCount`, with no partial output, exactly when some draw has the wrong number count; otherwise the same number of draws, each keeping idx, date and value order with every number aged by its gap (empty maps to empty) |
| Results.ContainsNumber | Lottery/DataTypes/ResultTypes/Result.swift:39-41 | true exactly when some number of the draw has the value |
| Results.NumbersAsString | Lottery/DataTypes/ResultTypes/Result.swift:43-45 | splitting the text at commas gives back each value's decimal form, in stored order |
| Results.NumbersFromString | Lottery/DataTypes/ResultTypes/Result.swift:50-59 | succeeds exactly when the integer components number `validNumbersCount` and all lie in `1...validNumberMaxValue`; the count is checked first (`wrongNumbersCount` exactly when it is off); on success the values in order, each aged 0 |
| Results.NumbersRoundTrip | Lottery/DataTypes/ResultTypes/Result.swift:43-59 | a well-formed draw written by `numbersAsString` is read back by `numbersFromString` with the same values in order |
| Results.Empty | Lottery/DataTypes/ResultTypes/Result.swift:61-67 | `validNumbersCount` placeholder numbers (value 0, no age), index 0, dated now |
| Results.ParseLine | Lottery/DataTypes/ResultTypes/Result.swift:77-100 | the errors in the source's order, each exactly on its condition: `emptyLine` for the empty line, `missingComponent` unless three whitespace-separated columns, `wrongComponent` when the trimmed identifier is not an integer or the date does not parse, `wrongNumbersCount` when the comma-separated integers are not `validNumbersCount`; a parsed line holds that identifier, that date and those integers |
| Results.ParseFormattedLine | Lottery/DataTypes/ResultTypes/Result.swift:76-102 | a line written as `<idx>. <date> <n1>,...` parses back to that index, the formatter's date and those numbers in order |
| Results.ReadAll | Lottery/DataTypes/ResultTypes/Result.swift:69-107 | a successful read of a file yields one draw per line |
| Results.ReadAllStopsAtFailure | Lottery/DataTypes/ResultTypes/Result.swift:76-98 | once a line fails, the read fails with that line's error whatever follows |
| Results.ReadAllLines | Lottery/DataTypes/ResultTypes/Result.swift:76-102 | in a successful read, entry i is what line i parses to |
| Results.AgedZero | Lottery/DataTypes/ResultTypes/Result.swift:100 | the values in order, each as a number aged 0 |
| Results.ReadLines | Lottery/DataTypes/ResultTypes/Result.swift:69-107 | the read loop fails exactly when, and with the error with which, the first failing line fails; otherwise one draw per line, each with that line's idx, date and values aged 0 |
| Results.ResultsFrom | Lottery/DataTypes/ResultTypes/Result.swift:69-107 | `resultsFrom(lines:)` is that read with the line parser of the result type |
| LegacyResults.StructRules | Lottery/DataTypes/Result.swift:24-25 | the struct's constants are the Lotto rules |
| LegacyResults.ContainsNumber | Lottery/DataTypes/Result.swift:31-33 | true exactly when some stored number has the value |
| LegacyResults.NumbersAsString | Lottery/DataTypes/Result.swift:35-37 | splitting the text at commas gives back each value's decimal form, in stored order |
| LegacyResults.NumbersFromString | Lottery/DataTypes/Result.swift:43-52 | `wrongNumbersCount` exactly when there are not six integer components; `wrongNumbersRange` exactly when there are six and one is outside `1...49`; otherwise six values in order, each aged 0 |
| LegacyResults.Empty | Lottery/DataTypes/Result.swift:54-60 | six placeholder numbers, index 0, dated now |
| LegacyResults.ResultsFrom | Lottery/DataTypes/Result.swift:62-99 | one six-number draw per line, in order, or the error of the first line that does not parse |
| LottoResults.TypeRules | Lottery/DataTypes/ResultTypes/LottoResult.swift:16-17 | the type's constants are 6 and 49, the `lotto` case's rules |
| LottoResults.CreateResult | Lottery/DataTypes/ResultTypes/LottoResult.swift:12-14 | the created draw holds exactly the given idx, date and numbers |
| LottoResults.ContainsNumber | Lottery/DataTypes/ResultTypes/LottoResult.swift:23-25 | true exactly when some stored number has the value |
| LottoResults.NumbersAsString | Lottery/DataTypes/ResultTypes/LottoResult.swift:27-29 | splitting the text at commas gives back each value's decimal form, in stored order |
| LottoResults.NumbersRoundTrip | Lottery/DataTypes/ResultTypes/LottoResult.swift:27-29 | a well-formed Lotto draw written as text reads back with the same values |
| MiniLottoResults.TypeRules | Lottery/DataTypes/ResultTypes/MiniLottoResult.swift:16-17 | the type's constants are 5 and 42, the `miniLotto` case's rules |
| MiniLottoResults.CreateResult | Lottery/DataTypes/ResultTypes/MiniLottoResult.swift:12-14 | the created draw holds exactly the given idx, date and numbers |
| MiniLottoResults.ContainsNumber | Lottery/DataTypes/ResultTypes/MiniLottoResult.swift:23-25 | true exactly when some stored number has the value |
| MiniLottoResults.NumbersAsString | Lottery/DataTypes/ResultTypes/MiniLottoResult.swift:27-29 | splitting the text at commas gives back each value's decimal form, in stored order |
| MiniLottoResults.NumbersRoundTrip | Lottery/DataTypes/ResultTypes/MiniLottoResult.swift:27-29 | a well-formed Mini Lotto draw written as text reads back with the same values |
| Text.Split | Lottery/DataTypes/ResultTypes/Result.swift:51 | `components(separatedBy:)` yields one more component than there are separators, none containing a separator |
| Text.JoinSplit | Lottery/DataTypes/ResultTypes/Result.swift:51 | joining the comma-separated components with commas restores the string |
| Text.SplitJoin | Lottery/DataTypes/ResultTypes/Result.swift:44 | splitting a join of separator-free parts gives back the parts |
| Text.ParseInt | Lottery/DataTypes/ResultTypes/Result.swift:51 | `Int(_:)` accepts only an optional sign followed by digits, and only values that fit in 64 bits |
| Text.ParseShowInt | Lottery/DataTypes/ResultTypes/Result.swift:44-51 | every 64-bit integer written by interpolation parses back to itself |
| Text.ParseDigits | Lottery/DataTypes/ResultTypes/Result.swift:88 | a run of digits parses to its decimal value |
| Text.ShowIntChars | Lottery/DataTypes/ResultTypes/Result.swift:44 | an interpolated integer holds only digits and a leading minus: no comma, no whitespace |
| Text.ParseInts | Lottery/DataTypes/ResultTypes/Result.swift:51 | `compactMap { Int($0) }` keeps at most one value per component, each a 64-bit integer |
| Text.ShowInts | Lottery/DataTypes/ResultTypes/Result.swift:44 | one decimal string per value, in order |
| Text.ParseShowInts | Lottery/DataTypes/ResultTypes/Result.swift:44-51 | `compactMap { Int($0) }` after `map { "\($0)" }` gives back the values |
| Text.TrimPunctuation | Lottery/DataTypes/ResultTypes/Result.swift:88 | `trimmingCharacters(in: .punctuationCharacters)` drops punctuation at both ends only, leaving no punctuation at either end, over the ASCII punctuation set |
| Text.TrimNumbering | Lottery/DataTypes/ResultTypes/Result.swift:88 | the identifier column `<n>.` trims to the numeral |
| CouponGenerators.CouponGenerator.constructor | Lottery/Models/CouponGenerator.swift:18-21 | stores the candidate lists and the exclusion list unchanged |
| CouponGenerators.CouponGenerator.PrepareCoupon | Lottery/Models/CouponGenerator.swift:39-50 | a returned coupon has one value per position, each from that position's list, none twice, strictly ascending; it traps only with no positions, a missing list or an empty list, and surely traps with no positions or an empty first list; it returns whenever each list has more distinct values than the positions before it |
| CouponControllers.UnwrapResults | Lottery/Models/CouponController.swift:100-105 | nil exactly when one of the three is nil; otherwise the triple of their values |
| CouponControllers.Scan | Lottery/Models/CouponController.swift:114-134 | the scan state after some coupons: never more coupons let through than given |
| CouponControllers.SetsOf | Lottery/Models/CouponController.swift:128-133 | the sets inserted are exactly the number sets of the coupons let through |
| CouponControllers.SeenAreAccepted | Lottery/Models/CouponController.swift:128-133 | the seen sets are always exactly the number sets of the coupons let through |
| CouponControllers.AcceptedIsSubsequence | Lottery/Models/CouponController.swift:112-137 | the coupons let through are a subsequence of the input, in input order |
| CouponControllers.AcceptedFromInput | Lottery/Models/CouponController.swift:112-137 | every coupon let through is one of the input |
| CouponControllers.FirstIsAccepted | Lottery/Models/CouponController.swift:120-133 | the first coupon always passes, since nothing has been seen yet |
| CouponControllers.AcceptedAreSeparated | Lottery/Models/CouponController.swift:120-133 | with distance 0 the coupons let through have pairwise different number sets; otherwise each later one has more than `distance` numbers outside every earlier one |
| CouponControllers.AtMostOneWhenDistanceCoversAll | Lottery/Models/CouponController.swift:122-126 | when no coupon has more numbers than the distance, at most one coupon passes |
| CouponControllers.FilterOutCouponsByDistance | Lottery/Models/CouponController.swift:112-137 | the stateful filter lets through exactly the coupons the scan lets through |
| ResultRandomizers.RandomFor | Lottery/Models/AgesPerPosition/Helpers/ResultRandomizer.swift:14-50 | no numbers or unusable statistics give nil; it traps exactly when, past those guards, some number has no age; nil otherwise only for a position whose band holds no number; it retries for ever only when a band offers no value not chosen; a draw has index 0, date now, one number per position chosen from that position's one-deviation band, no value twice, sorted by `<` into strictly falling values; it surely returns a draw when every age is known and each band has more distinct values than the positions before it |
| ResultRandomizers.SortedChosenStrictlyFalling | Lottery/Models/AgesPerPosition/Helpers/ResultRandomizer.swift:41-48 | numbers chosen with pairwise different values and sorted by `<` have strictly falling values |
| BestFriends.CoOccurrencesSymmetric | Lottery/Models/BestFriends/BestFriendsModel.swift:83-90 | value a meets value b in the history as often as b meets a |
| BestFriends.CoOccurrencesDiagonal | Lottery/Models/BestFriends/BestFriendsModel.swift:85 | a value never counts as meeting itself |
| BestFriends.TableSymmetric | Lottery/Models/BestFriends/BestFriendsModel.swift:80-93 | the trained friendliness table is symmetric with a zero diagonal |
| BestFriends.EmptyTable | Lottery/Models/BestFriends/BestFriendsModel.swift:81 | the starting table holds, for each value k + 1, a number with all weights zero |
| BestFriends.AddDrawFriends | Lottery/Models/BestFriends/BestFriendsModel.swift:84-89 | the two inner loops over one draw add `1 / count` to a's weight for b once per co-occurrence of a with a different b |
| BestFriends.DeriveNumbersFriendliness | Lottery/Models/BestFriends/BestFriendsModel.swift:80-93 | the table built from the history: a's weight for b is their co-occurrence count times `1 / count` |
| BestFriends.IgnoringFoldIsLast | Lottery/Models/BestFriends/BestFriendsModel.swift:73-76 | the inner `reduce` discards its accumulator, so it yields the weight of the last number only (its seed when there is none) |
| BestFriends.ResultFriendlinessIsWithLast | Lottery/Models/BestFriends/BestFriendsModel.swift:65-78 | a draw's score is the sum of its other numbers' weights for its last number, and 0 for no numbers |
| BestFriends.ThreeNumberScore | Lottery/Models/BestFriends/BestFriendsModel.swift:69-77 | for three numbers the pair of the first two does not count |
| BestFriends.Scores | Lottery/Models/BestFriends/BestFriendsModel.swift:36-39 | one score per draw of the history, in order |
| BestFriends.BestFriendsModel.constructor | Lottery/Models/BestFriends/BestFriendsModel.swift:18-20 | stores the window length, with nothing trained or published yet |
| BestFriends.BestFriendsModel.Train | Lottery/Models/BestFriends/BestFriendsModel.swift:21-24 | after the initializer's task, an empty history publishes nothing; otherwise the table is the history's and the published statistic is the mean and deviation of the history's scores |
| BestFriends.BestFriendsModel.ModelResultsBasedOn | Lottery/Models/BestFriends/BestFriendsModel.swift:27-48 | nil exactly for an empty history; otherwise it rebuilds the table and returns the mean and deviation of the scores as one-element arrays |
| BestFriends.BestFriendsModel.DeriveResultFriendliness | Lottery/Models/BestFriends/BestFriendsModel.swift:65-78 | 0 before training; otherwise the sum of the other numbers' weights for the last number |
| BestFriends.BestFriendsModel.IsResultInScope | Lottery/Models/BestFriends/BestFriendsModel.swift:50-63 | false without a statistic having a first average and deviation, or for a result of the wrong length; otherwise true exactly when the score lies strictly between average - deviation and average + deviation |
| BestFriends.InScopeAfterTraining | Lottery/Models/BestFriends/BestFriendsModel.swift:50-63 | after training on a non-empty history, a result of the right length is in scope exactly when its weights for its last number sum strictly within one deviation of the mean score |
| CouponGeneratorViewModels.CouponGeneratorViewModel.constructor | Lottery/CouponGeneratorViewModel.swift:14-40 | defaults 30 s, distance 2, ten coupons; then readiness, progress and a non-empty coupon batch as delivered on subscription; no running generation |
| CouponGeneratorViewModels.CouponGeneratorViewModel.ReceiveCommonDataReady | Lottery/CouponGeneratorViewModel.swift:28 | `canGenerateCoupons` follows the controller's readiness and nothing else changes |
| CouponGeneratorViewModels.CouponGeneratorViewModel.ReceiveProgress | Lottery/CouponGeneratorViewModel.swift:30 | `progress` follows the controller's progress |
| CouponGeneratorViewModels.CouponGeneratorViewModel.ReceiveGeneratedCoupons | Lottery/CouponGeneratorViewModel.swift:32-38 | an empty batch changes nothing; otherwise generation stops, progress resets to 0 and the batch is shown |
| CouponGeneratorViewModels.CouponGeneratorViewModel.GenerateCoupons | Lottery/CouponGeneratorViewModel.swift:42-47 | marks generation running and makes one request with the current timeout, distance and count |
| CouponGeneratorViewModels.CouponGeneratorViewModel.ClearCoupons | Lottery/CouponGeneratorViewModel.swift:49-51 | empties the coupon list and nothing else |
| CouponGeneratorViewModels.CouponGeneratorViewModel.CancelGeneration | Lottery/CouponGeneratorViewModel.swift:53-57 | stops generation, resets progress and sends one cancellation |
| SingleNumberInfos.SingleNumberInfo.DisplayNumber | Lottery/SingleNumberInfo.swift:19-21 | the given number, or a fresh placeholder of value 0 with no age |
| SingleNumberInfos.AcceptedValue | Lottery/SingleNumberInfo.swift:108 | a candidate is accepted exactly when it parses as an integer in `1...49`, and then as that integer |
| SingleNumberInfos.FirstIndexOfId | Lottery/SingleNumberInfo.swift:113 | the first index whose number carries the id, or none exactly when no number does |
| SingleNumberInfos.RemoveInsertIsReplace | Lottery/SingleNumberInfo.swift:114-116 | removing at an index and inserting there replaces that one entry |
| SingleNumberInfos.Replaced | Lottery/SingleNumberInfo.swift:112-117 | the replacement keeps the length of the result |
| SingleNumberInfos.ReplacedKeepsValuesDistinct | Lottery/SingleNumberInfo.swift:112-117 | writing a value not yet present keeps the result's values pairwise different |
| SingleNumberInfos.ReplacedHasValue | Lottery/SingleNumberInfo.swift:112-117 | afterwards the new value is present exactly when an entry carried the id or it was there before |
| SingleNumberInfos.ReplacedEntry | Lottery/SingleNumberInfo.swift:112-117 | the first entry carrying the id keeps that id, takes the new value and has no age; with no such entry the result is unchanged |
| SingleNumberInfos.ReplacedOthersUnchanged | Lottery/SingleNumberInfo.swift:113-117 | every entry but the replaced one is unchanged |
| SingleNumberInfos.ValueView.constructor | Lottery/SingleNumberInfo.swift:67-76 | stores the model, number and flags, with the alert closed and an empty candidate |
| SingleNumberInfos.ValueView.Tap | Lottery/SingleNumberInfo.swift:97-104 | a tap on a past cell opens the input; any other tap leaves it as it was |
| SingleNumberInfos.ValueView.UpdatePastNumber | Lottery/SingleNumberInfo.swift:107-120 | an unacceptable candidate is cleared; an accepted value already in the past result changes nothing; otherwise the entry with the cell's id is replaced in place by that id with the new value, which the cell then shows; without such an entry nothing changes |

## Left out

- Persistence and ingestion (`DataModel.swift`, CoreData, bundle files, `URLSession`) and dependency injection: input and output, outside this model.
- Combine and `Task` orchestration: `CouponController.prepareCoupons`, `CouponGenerator.generateCouponsPublisher` with its sleep and timeout, `AgesPerPositionModel`, `ModelsTuner`; only the steps they call are modelled.
- `ResultsModel.swift` and `AgesPerPositionModelTuner.swift`: the tuners return constants (0.6, 0.7) before their search has any effect; the model takes the deviation factor as a parameter.
- `Lottery/Models/Helpers/ResultRandomizer.swift`: a stale copy that does not compile against `ResultsData`; the AgesPerPosition copy is modelled.
- The SwiftUI views, the colours of `AgeView`, the `isFuture` debugging taps and all `print` output: presentation only.
- Floating point: `NSExpression` averages and standard deviations, `round` and the friendliness weights are computed on exact reals, so IEEE rounding is not modelled; `round` rounds half away from zero.
- Concurrency: `BestFriendsModel.Train` runs inline, not in a `Task`; its publication to the main actor is not modelled.
- The view-model bindings (`sink` on the controller's publishers) are modelled as event methods that the environment calls with each new value.
- `UUID` and `Date` values are not random or clock-based here: methods choose a fresh id nondeterministically and pure functions take an id supplier; `DateFormatter` is the `parseDate` parameter.
- Both copies of `DrawType` (`Domain` and the `Draw` package) share one module, since their cases and rules agree.
- `CouponGenerator`: the source's `set` property is named `numberSets`; the exclusion list is stored but, as in the source, never consulted.
- `AgesPerPositionResults.init` calls a `statisticsHandler.updatePositionsStatistics` that the shown handler does not declare; the model uses `StatisticsHandler.AgeStatistics`, the age statistics of the same app, in its place.
- BestFriends: `Number` inside `BestFriendsModel` is read as the package's own number type, and numbers are compared by value.
- Text.TrimPunctuation: `IsPunctuation` is the ASCII part of `.punctuationCharacters`; Swift's set covers all Unicode punctuation categories, so non-ASCII punctuation such as `«`, `—` or `。` around an identifier is not trimmed here.
- Aging.AgedNumbersBasedOn: requires every value reached in the window to lie in `1...max`. The source traps only on an out-of-range value met before its early return, so the precondition is stronger than the source's.
- AgesPerPosition.AgesPerPositionResults.PrepareCoupon: when statistics exist, at least one coupon is asked for and no list is empty, its `PicksAlwaysExtend` and `EnoughCoupons` preconditions stand for the termination of its two retry loops, which the source does not guarantee; with an empty list, `PicksAlwaysExtend` is asked only of the positions before it. The newer revision (`ResultsDataRevision.ResultsData.PrepareCoupon`) models divergence as a `Run` outcome instead. Its three traps (no statistics, no coupon asked for, an empty list) are modelled as `Trapped`.
- AgesPerPosition.AgesPerPositionResults.CheckResultComplianceWithStats: requires the draw compared to have no more aged numbers than the game draws; otherwise the source traps when it subscripts the position statistics.
- ResultsDataRevision.ResultsData.GetNumbers: requires statistics over at least six positions; the source traps at `statistics.average[position]` (Lottery/DataTypes/ResultsData.swift:47) for a game of fewer numbers, and `ResultsDataRevision.ResultsData.PrepareCoupon` models that trap as `Trapped`.
- ResultsDataRevision.ResultsData.CheckResultComplianceWithStats: the same precondition, for the same reason.
- BestFriends.BestFriendsModel.Train: requires every drawn value to be in `1...max`; the source traps at the table subscript otherwise.
- StatisticsHandler.AgeStatistics: requires that the window's slice is in bounds, which the source's own scope check does not ensure (see Findings); the source traps there otherwise.
- StatisticsHandler.UpdateAgeStatistics: the same precondition, for the same reason.
- PackageStatisticsHandler.PackageAgeStatistics: the same precondition for a non-empty history.
- PackageStatisticsHandler.UpdateAgeStatistics: the same precondition for a non-empty history.
- AgesPerPosition.Init: passes the slice precondition of `StatisticsHandler.AgeStatistics` on to its callers.
- ResultsDataRevision.ResultsData.Init: the same slice precondition.
- ResultsDataRevision.ResultsData.UpdatePositionsStatistics: the same slice precondition.

## Findings

| source | as written | input that shows it | evidently intended | confidence | as-written member | corrected member |
|---|---|---|---|---|---|---|
| Lottery/CouponGenerator/Sources/CouponGenerator/ResultsRangeOfInterest.swift:24 | the scope check accepts `results.endIndex >= endIdx`, so a window ending at the last index plus one passes | a range starting at 0 of length 1 on an empty history: the check passes and the slice `results[0...0]` traps | the check should demand `endIdx < results.count`, the last index the closed slice reads | not executed | `RangesOfInterest.ScopeCheckAdmitsWindowPastEnd` | `RangesOfInterest.CorrectedScopeIsInBounds` |
