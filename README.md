# Marble League odds estimator, modelled in Dafny

The estimator predicts how a league of marble teams will finish. It works in
two stages.

**Building a score distribution** (Precompute.py). Each of the 20 players
finishes each round in one of 20 places, and each place awards a fixed number
of points (20, 17, 14, 12, 11, 10, 9, 8, 7, 6, 5, 4, 3, 2, 1, then 0 for the
last five). The builder enumerates every *placement vector*: how many times
one player took each place over the rounds. For each vector it adds the
vector's multinomial coefficient to a dictionary keyed by the vector's total
score.

**Estimating the odds** (CalculateOdds.py). The odds engine reads that
dictionary, divides every multiplicity by `team_count ^ round_count`, and
computes for every team the chance that it finishes first, second or third:

- a team's final total is its starting score plus an independent draw from
  the distribution;
- a team ranks `k`-th when exactly `k - 1` named other teams beat it and it
  holds every remaining team, with ties going its way.

The engine then:

- adds the three place odds into a podium figure;
- rescales each place column to total 1;
- recomputes the podium figures.

**Checking a data file** (TestDataFile.py). The checker preprocesses a
distribution file the same way and adds up the probabilities.

The model is split into modules along these lines:

- `Combinatorics` holds the exact integer arithmetic: `factorial` as the
  source writes it, binomial and multinomial coefficients, the binomial
  theorem.
- `Sums` holds the order-independent total of a dictionary's values.
- `Precompute` holds the scoring table, `calculate_score`,
  `calculate_multiplicity`, the recursive enumeration
  `calculate_score_distribution` over a mutable `ScoreDistribution`
  dictionary, and `create_data`. The recursive method is specified by a
  function that follows the recursion. That function is proved equal to
  adding up an independently defined list of placement vectors. The list
  is proved to hold exactly the non-negative vectors of 20 entries summing
  to the round count, and their multiplicities are proved to add up to
  `20 ^ rounds`.
- `BetterSets` holds the lists of "better teams" that the second- and
  third-place loops iterate over, in the loops' order. They are proved
  exact, duplicate-free and of size `n - 1` and `(n - 1)(n - 2) / 2`.
- `Odds` holds preprocessing, `probability_team_greater`,
  `compare_teams_at_score`, `compare_teams`, the three place-odds functions,
  `calculate_team_odds` and `calculate_winning_odds`. Each loop is a method
  proved equal to a recursive specification function. The first-place odds
  are proved to be a probability, and every sum of `compare_teams` values
  to be non-negative.
- `PlaceBounds` proves that a team's first-, second- and third-place odds,
  before normalisation, are each a probability and add up to at most 1. At
  one draw, the at-score products for no team, each single team and each
  pair are the chances that exactly those teams finish ahead, so they add
  up to at most 1; the proof builds these three sums one team at a time
  and then exchanges the sum over better sets with the sum over draws.
- `Presentation` holds `normalize_odds` and the podium pass of `round_odds`
  as methods of a mutable `OddsTable`, and the pipeline of the odds
  program's `main`.
- `TestDataFile` holds the checker's `main`, and the proof that a file
  written by the builder totals exactly 1.

Data representation:

- Dictionaries that are only read are association lists in their JSON
  order: scores to multiplicities or probabilities, and team names to
  starting scores. Teams are referred to by position, as the source does
  through `list(team_input.keys())[team]`.
- The builder's dictionary, which the enumeration changes in place, is a
  `map<int, int>` field of a class.
- Floating-point numbers are exact reals.
- Exceptions the source raises are the `Err` case of a `Result`. The
  errors modelled are the `ZeroDivisionError`s; the `OverflowError` of a
  float conversion is not modelled (see "Left out").

## Model

| member | source | states |
|---|---|---|
| Combinatorics.Factorial | Precompute.py:16-23 | 0 for every negative argument, at least 1 for every natural one and at least `n` from 1 up |
| Combinatorics.FactorialIsRangeProduct | Precompute.py:16-23 | for every natural `n` the recursion computes the product `1 * 2 * ... * n` |
| Precompute.ScoringShape | Precompute.py:7-8 | the scoring table has one entry per place (20) and every award lies between 0 and 20 points |
| Precompute.CalculateScore | Precompute.py:31-35 | the accumulating loop returns the place-weighted score of the vector |
| Precompute.ScoreBounds | Precompute.py:31-35 | a vector's score is between 0 and 20 times its number of rounds |
| Precompute.MultiplicityStepExact | Precompute.py:53-54 | each successive floor division by an entry's factorial is exact: no remainder is discarded |
| Precompute.CalculateMultiplicity | Precompute.py:43-56 | the two loops return the multinomial coefficient of the vector, and that coefficient times the product of the entries' factorials is the factorial of their sum |
| Combinatorics.MultinomialFactorials | Precompute.py:43-56 | the product-of-binomials coefficient times the product of the factorials equals the factorial of the sum |
| Combinatorics.BinomFactorial | Precompute.py:52-54 | `C(a + b, a) * a! * b! == (a + b)!` |
| Combinatorics.BinomialTheorem | Precompute.py:86-92 | `sum over j of C(n, j) * x^(n - j)` equals `(x + 1)^n`, the identity behind the enumeration's total |
| Precompute.CompositionsSound | Precompute.py:86-92 | every vector the recursion reaches has one entry per remaining placement, non-negative entries, and entries summing to the remaining rounds |
| Precompute.CompositionsComplete | Precompute.py:86-92 | every such vector is reached |
| Precompute.CompositionsNoRounds | Precompute.py:70-92 | with no rounds left the only vector reached is the all-zero one |
| Precompute.Add | Precompute.py:75-78 | the leaf's update adds the multiplicity to the score's entry, creates the entry when missing, and leaves every other entry unchanged |
| Precompute.Leaves | Precompute.py:65-92 | the leaves below a call are the call's prefix extended by each composition of the remaining rounds; a vector is among them if and only if it is the prefix followed by `placements` non-negative entries adding up to the remaining rounds |
| Precompute.ScoreDistribution.constructor | Precompute.py:101 | a new score dictionary is empty |
| Precompute.CalculateScoreDistribution | Precompute.py:65-92 | the recursive enumeration leaves the dictionary as the recursion prescribes: a completed vector adds its multiplicity under its score, a dead end (no placements left but rounds remaining) changes nothing, and otherwise each next entry `0 .. rounds` is tried in turn |
| Precompute.VisitLeaves | Precompute.py:65-92 | that recursion has the same effect as adding, one after another, the multiplicity of every vector `Leaves` lists: exactly the valid completions of the current prefix |
| Precompute.CreateData | Precompute.py:100-104 | `create_data` returns the dictionary built from an empty one over all 20 placements |
| Precompute.MultinomialTheorem | Precompute.py:86-92 | the multiplicities of all vectors reached add up to `placements ^ rounds` |
| Precompute.AddAllTotal | Precompute.py:75-78 | the leaves raise the dictionary's total by exactly the sum of their multiplicities |
| Precompute.AddAllMonotone | Precompute.py:75-78 | a leaf never removes a score and never lowers a multiplicity |
| Precompute.AddAllKeys | Precompute.py:70-78 | a score is present afterwards if and only if it was present before or it is the score of a leaf |
| Precompute.AddAllNonnegative | Precompute.py:75-78 | starting from non-negative multiplicities, every multiplicity stays non-negative |
| Precompute.DistributionTotal | Precompute.py:100-104 | the multiplicities of `create_data(rounds)` add up to `20 ^ rounds`, the number of equally likely outcomes |
| Precompute.DistributionNonnegative | Precompute.py:100-104 | every multiplicity of `create_data(rounds)` is non-negative |
| Precompute.DistributionScores | Precompute.py:100-104 | every score in `create_data(rounds)` lies between 0 and `20 * rounds` |
| Precompute.DistributionNoRounds | Precompute.py:100-104 | `create_data(0)` is `{0: 1}` |
| Precompute.DistributionNegativeRounds | Precompute.py:82-92 | with a negative round count nothing is recorded and `create_data` returns an empty dictionary |
| Sums.TotalRemove | Precompute.py:75-78 | the total of a dictionary does not depend on which entry is taken out first |
| Sums.TotalUpdate | Precompute.py:75-78 | overwriting one entry changes the total by the difference between the new and old values |
| Odds.OutcomeSpace | CalculateOdds.py:39 | `pow(team_count, round_count)` is the integer power for a non-negative exponent; it fails exactly when the base is 0 and the exponent negative |
| Odds.OutcomeSpaceReciprocal | CalculateOdds.py:39 | for a negative exponent the outcome space is the reciprocal of the power with the positive exponent |
| Odds.OutcomeSpacePositive | CalculateOdds.py:39 | with at least one team the outcome space is positive |
| Odds.PreprocessScoreDistribution | CalculateOdds.py:37-44 | the loop builds the preprocessed distribution, or stops with the division by zero at the first entry |
| Odds.PreprocessErrors | CalculateOdds.py:37-44 | preprocessing fails if and only if there are no teams and either the exponent is negative or a positive exponent meets a non-empty distribution |
| Odds.PreprocessEntries | CalculateOdds.py:41-42 | preprocessing keeps every score in order, and each probability times the outcome space is the score's multiplicity |
| Odds.PreprocessMass | CalculateOdds.py:41-42 | the probabilities add up to the total multiplicity divided by the outcome space |
| Odds.PreprocessNonnegative | CalculateOdds.py:37-44 | with at least one team and non-negative multiplicities, preprocessing succeeds with non-negative probabilities |
| Odds.PreprocessDistribution | CalculateOdds.py:37-44 | when the multiplicities count `team_count ^ round_count` outcomes, the result is a probability distribution |
| Odds.ProbabilityTeamGreater | CalculateOdds.py:175-186 | the loop returns the total weight of the draws for the other team that leave `team` at least level |
| Odds.ProbabilityGreaterBounds | CalculateOdds.py:175-186 | over a probability distribution the result lies in [0, 1] |
| Odds.ProbabilityGreaterMonotone | CalculateOdds.py:175-186 | a higher draw or starting score for `team`, or a lower starting score for the other team, never lowers the probability |
| Odds.GreaterBounds | CalculateOdds.py:181-184 | the accumulated weight lies between 0 and the distribution's total weight |
| Odds.CompareTeamsAtScore | CalculateOdds.py:159-171 | the loop returns the product over the other teams of the chance each is ahead of `team` (for the better teams) or behind it (for the rest) |
| Odds.AtScoreBounds | CalculateOdds.py:159-171 | over a probability distribution that product lies in [0, 1] |
| Odds.CompareTeams | CalculateOdds.py:139-147 | the loop returns the sum over draws of the draw's weight times the product at that draw |
| Odds.CompareProbabilityBounds | CalculateOdds.py:139-147 | over a probability distribution the result lies in [0, 1] |
| Odds.SumCompareAppend | CalculateOdds.py:97-128 | adding up `compare_teams` over two lists of better sets in turn gives the sum over their concatenation |
| Odds.SumCompareBounds | CalculateOdds.py:97-128 | a sum of `compare_teams` over `k` better sets lies between 0 and `k` |
| Odds.CalculateTeamFirstOdds | CalculateOdds.py:85-86 | the first-place odds are `compare_teams` with no better team |
| Odds.FirstOddsBounds | CalculateOdds.py:85-86 | the first-place odds are a probability |
| BetterSets.SecondSetsExact | CalculateOdds.py:99-103 | a better set visited by the second-place loop is exactly a single team other than `team` |
| BetterSets.SecondSetsNoDuplicates | CalculateOdds.py:99-103 | no better set is visited twice |
| BetterSets.SecondSetsCount | CalculateOdds.py:99-103 | with `team` among the `n` teams the loop visits `n - 1` sets |
| Odds.CalculateTeamSecondOdds | CalculateOdds.py:96-105 | the loop adds up `compare_teams` over every single other team, in index order |
| PlaceBounds.SecondOddsBounds | CalculateOdds.py:96-105 | over a probability distribution the second-place odds are a probability |
| BetterSets.ThirdSetsExact | CalculateOdds.py:118-126 | a better set visited by the third-place loops is exactly a pair `[j, k]` of teams other than `team` with `j < k` |
| BetterSets.ThirdSetsNoDuplicates | CalculateOdds.py:118-126 | no pair is visited twice |
| BetterSets.ThirdSetsCount | CalculateOdds.py:118-126 | with `team` among the `n` teams the loops visit `(n - 1)(n - 2) / 2` pairs |
| BetterSets.FewTeamsNoPairs | CalculateOdds.py:118-126 | with fewer than three teams no pair is visited |
| Odds.PairOdds | CalculateOdds.py:122-126 | the inner loop adds up `compare_teams` over every partner `team_3 > team_2` other than `team`, in index order |
| Odds.CalculateTeamThirdOdds | CalculateOdds.py:115-128 | the nested loops add up `compare_teams` over every such pair, in loop order |
| PlaceBounds.ThirdOddsBounds | CalculateOdds.py:115-128 | over a probability distribution the third-place odds are a probability, and 0 when there are fewer than three teams |
| Odds.CalculateTeamOdds | CalculateOdds.py:69-75 | the record holds the three place odds, and its podium is their sum |
| PlaceBounds.TeamOddsBounds | CalculateOdds.py:69-75 | over a probability distribution the first, second, third and podium fields each lie in [0, 1], the three places add up to at most 1, and the podium is their sum |
| PlaceBounds.AheadSums | CalculateOdds.py:159-171 | at one draw, the at-score products of the empty set, of every single other team and of every pair of other teams add up, over the first `n` teams, to the three chances of the recurrence "no team / one team / two teams ahead so far" |
| PlaceBounds.AheadBounds | CalculateOdds.py:159-171 | when every hold chance is a probability, the three chances of the recurrence are non-negative and add up to at most 1 |
| PlaceBounds.SumCompareDraws | CalculateOdds.py:139-147 | summing `compare_teams` over a list of better sets gives the same as summing, draw by draw, the draw's weight times the at-score products of those sets |
| PlaceBounds.PlacesAtMostOne | CalculateOdds.py:85-128 | over a probability distribution the first-, second- and third-place odds are non-negative and add up to at most 1 |
| Odds.CalculateWinningOdds | CalculateOdds.py:53-59 | one record per team, under the team's name, in input order |
| Presentation.OddsTable.constructor | CalculateOdds.py:53-59 | the table holds the rows it was given |
| Presentation.OddsTable.NormalizeOdds | CalculateOdds.py:190-205 | on success every place entry is divided by its column's old total; on a zero total in a non-empty table the division by zero is reported and the table is unchanged |
| Presentation.NormalizeErrors | CalculateOdds.py:190-205 | normalisation fails if and only if the table is non-empty and some place column totals 0 |
| Presentation.NormalizeColumnsSumToOne | CalculateOdds.py:189-205 | after normalisation each place column of a non-empty table totals 1 |
| Presentation.NormalizeRatios | CalculateOdds.py:200-203 | normalisation keeps names, order and podiums, and keeps the ratio between any two entries of a column |
| Presentation.FewTeamsNormalizeFails | CalculateOdds.py:190-205 | with one or two teams, whatever the distribution, the third column totals 0 and normalisation divides by zero |
| Presentation.OddsTable.RoundOdds | CalculateOdds.py:208-216 | every podium becomes the sum of the record's three place odds; names, order and place odds are unchanged |
| Presentation.PodiumTotalsThree | CalculateOdds.py:208-216 | after normalisation and the podium pass the podium column totals 3 |
| Presentation.CalculateOdds | CalculateOdds.py:219-236 | the pipeline preprocesses with the number of teams, computes the odds, normalises and recomputes podiums, stopping at the first division by zero |
| Presentation.OutcomeFewTeams | CalculateOdds.py:219-236 | with one or two teams the program ends in a division by zero, whatever the distribution and the round count |
| Presentation.OutcomePodium | CalculateOdds.py:219-236 | whenever the program produces a table with teams in it, the table has one row per team and its podium column totals 3 |
| TestDataFile.TotalOdds | TestDataFile.py:43-45 | the loop returns the total probability of the preprocessed data |
| TestDataFile.CheckDataFile | TestDataFile.py:25-47 | the checker fails exactly when preprocessing does; otherwise its total times the outcome space is the file's total multiplicity |
| TestDataFile.SerializedCount | TestDataFile.py:40 | the members of a written dictionary add up to the dictionary's total |
| TestDataFile.PrecomputedFileTotalsOne | TestDataFile.py:35-47 | a file written by the builder for `rounds` rounds, checked with 20 players and the same rounds, holds a probability distribution: the printed total is 1 |

## Left out

- File and JSON input/output (`read_json_file`, `write_json_file`, `create_data_file`), command-line parsing and `print` are not modelled. The operations take and return the parsed values.
- Keys: `json.dump` turns the builder's integer keys into strings, and `preprocess_score_distribution` turns them back with `int(score)`. Both are taken as the identity on integer keys. The association lists are assumed free of duplicate keys, so the last-wins overwrite of a repeated key is not modelled.
- Team names are assumed distinct, as the keys of the team dictionary are.
- Floating point: probabilities are exact reals, so IEEE rounding is not modelled.
- `OverflowError` is not modelled. Multiplicities are Python integers, and the division by the outcome space (CalculateOdds.py:42, TestDataFile.py:30) raises it when the quotient lies beyond the float range, or, for a negative exponent, when the multiplicity cannot be converted to a float.
- Presentation.OddsTable.RoundOdds: the rounding of each place odds to four decimals with `round(x, 4)` is modelled as the identity. The podium is the sum of the unrounded values, so `PodiumTotalsThree` holds exactly only without rounding.
- Presentation.OddsTable.NormalizeOdds: when a later column totals 0, the source has already divided some entries before the exception. The model checks all three totals first and leaves the table unchanged. The exception ends the program, so the partial update is not observable.
- Precompute.CalculateScore: requires at most 20 entries. A longer vector would raise `IndexError` in the source, but the enumeration never builds one.
- Precompute.CalculateMultiplicity: requires non-negative entries. With a negative entry the source's `factorial` returns 0 and the division raises, but the enumeration never builds such a vector.
- Recursion depth and running time of the enumeration (exponential in the number of rounds) are not modelled.
- How the engine treats the data is taken from the code. Independent draws, ties counted in a team's favour, and the place loops over better sets are modelled as written, not as an idealised probability model.
- With one or two teams the code's `normalize_odds` divides by zero, since the third column is all zeros. The model reports this as an error, as the code does; it is not treated as a podium of two teams.
