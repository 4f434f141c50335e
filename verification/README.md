# Scavenger Hunt — a Dafny model of the game logic

The scavenger hunt is a console game. It lists the sample pictures in
`objectSamples/` and asks how many rounds to play. It shuffles the samples
and shows one per round. In each round the player gets up to three attempts
to pick a picture file showing the same object or place. Each picked file is
handed to an external image matcher, whose process exit status says whether
it matched. At the end the game prints a score made of three parts:

- an accuracy bonus;
- a bonus per match;
- a penalty that grows with the square of the misses.

This project models the logic of the game's `main` routine once the sample
names are known. Five modules cover it:

- `Matcher` (`matcher.dfy`): the matcher protocol.
  - The reference path is the sample folder followed by the sample's name.
  - Each run starts `ScreenSearch.exe` with the mode `objectDetection`, the
    reference and the picked file in double quotes, and the output picture
    `lastMatch.png`.
  - Exit status 0 is a match, 1 is no match, 2 is malformed arguments, and
    any other 32-bit status is unknown.
- `Catalog` (`catalog.dfy`): the samples.
  - The round count is accepted when it is at least 1 and at most the number
    of samples.
  - The shuffle performs `3·N` swaps of two drawn indices.
- `Round` (`round.dfy`): the guess loop of one round. Each attempt has four
  possible results:
  - the picker fails, and the game exits with code 3;
  - the player cancels, which uses up the attempt and changes no counter;
  - the file matches, which counts a match and ends the round;
  - the file does not match, or the status is unknown, which counts a miss;
  - status 2 makes the game throw an exception that nothing catches.

  The loop is given twice:
  - as the loop itself (`PlayRoundFrom`);
  - as a reference description by the first attempt that decides the round
    (`RoundSpec`).

  The two are proved equal.
- `Scoring` (`scoring.dfy`): the three parts of the score and the total.
  The total is not clamped.
- `Game` (`game.dfy`): a whole game.
  - The round loop over the front of the shuffled list, as a function
    (`PlayRounds`, `Play`) and as the imperative loop (`PlayLoop`, `RunGame`).
  - The exit codes: 0 for success, 2 for an invalid round count, 3 for a file
    dialog error, and an uncaught exception for malformed matcher arguments.

The random generator, the file picker and the matcher are inputs:

- the shuffle's index pairs (`draws`, each index in `[0, N)`);
- for each round, a script of three `Attempt`s saying what the picker and the
  matcher answer on each attempt. A round reads its script only up to the
  attempt that ends it (`RoundIgnoresUnusedAttempts`).

Where the on-screen instructions and the code disagree, the model follows the
code:

- Misses are counted per failed attempt, not per failed round. The message
  at `ScavengerHunt/ScavengerHunt.cpp:73` promises two more attempts "without
  penalty", but each attempt whose status is 1 or unknown adds a miss. A round
  can add up to three misses, and up to two while still ending in a match
  (`RoundMissesPerFailedAttempt`, `MatchAfterTwoMisses`).
- A cancelled picker is described in a comment as "a miss", but it changes no
  counter. A round of three cancels adds nothing (`ThreeCancelsCostNothing`).
- An empty sample folder is rejected with exit code 2, because no round count
  can be at most 0. Exit code 1 is only for a folder that cannot be opened.

## Model

| member | source | states |
|---|---|---|
| Matcher.SamplePathInjective | ScavengerHunt/ScavengerHunt.cpp:86 | prefixing the sample folder keeps names apart: two samples share a reference path only when they share a name |
| Matcher.CommandLineQuotesPaths | ScavengerHunt/ScavengerHunt.cpp:156-163 | the parameter string quotes both image paths, so when neither holds a double quote, splitting it at the quotes gives back, in order, the mode, the reference, the candidate and the output picture, with their separating spaces |
| Matcher.Classify | ScavengerHunt/ScavengerHunt.cpp:177-207 | a status is unknown exactly when it is above 2; statuses 0, 1 and 2 are match, no match and malformed arguments |
| Matcher.ClassifyCanonicalStatus | ScavengerHunt/ScavengerHunt.cpp:180-207 | every verdict is recovered from the status that reports it, so the switch tells the four verdicts apart |
| Catalog.ValidRoundCount | ScavengerHunt/ScavengerHunt.cpp:51 | no contract (a predicate); `Game.PlayRejectsExactlyBadRoundCounts` shows the game is refused exactly when it fails |
| Catalog.SwapAt | ScavengerHunt/ScavengerHunt.cpp:63-65 | the swap through a temporary exchanges the two positions, leaves every other position alone and keeps the multiset |
| Catalog.ApplySwaps | ScavengerHunt/ScavengerHunt.cpp:58-66 | any sequence of in-range swaps keeps the length and the multiset of names |
| Catalog.Shuffle | ScavengerHunt/ScavengerHunt.cpp:57-66 | the loop of `3·N` swaps yields a list of the same length and multiset, equal to the swaps applied in draw order |
| Catalog.ShuffleIsPermutation | ScavengerHunt/ScavengerHunt.cpp:58-66 | the shuffled list holds the same names as the input, both ways, and has no duplicate when the input had none |
| Round.AttemptEffect | ScavengerHunt/ScavengerHunt.cpp:115-207 | no contract; the body of the guess loop for one attempt, described through `PlayRoundMatchesSpec`, `RoundBounds` and `RoundEndsOnDecidingAttempt` |
| Round.PlayRoundFrom | ScavengerHunt/ScavengerHunt.cpp:95-208 | no contract; the guess loop from a given attempt on, equal to `Settle` at the first decisive attempt by `PlayRoundFromSettles` |
| Round.PlayRound | ScavengerHunt/ScavengerHunt.cpp:95-208 | no contract; one round, equal to the reference description `RoundSpec` by `PlayRoundMatchesSpec` |
| Round.PlayRoundMatchesSpec | ScavengerHunt/ScavengerHunt.cpp:95-207 | the guess loop equals the reference description. The attempts before the first decisive one (a picker failure, status 0 or status 2) each add one miss if penalised and one matcher run if a file was picked. The decisive attempt, or the end of the third attempt, then fixes the outcome |
| Round.RoundBounds | ScavengerHunt/ScavengerHunt.cpp:95-207 | a round uses 1 to 3 attempts, and all 3 when it ends without a match. Matches grow by exactly one on a match and otherwise not at all. Misses never go down and grow by at most the attempts used, one fewer when a match or an abort ended the round. Every matcher run uses the round's reference |
| Round.RoundEndsOnDecidingAttempt | ScavengerHunt/ScavengerHunt.cpp:180-198 | a round that matched or aborted ended on its first decisive attempt. A match came from status 0, and its matcher run is the round's last. An abort by the matcher came from status 2 |
| Round.RoundIgnoresUnusedAttempts | ScavengerHunt/ScavengerHunt.cpp:95-97 | attempts after the one that ends the round are never consumed: scripts that agree on the used attempts give the same round |
| Round.RoundMissesPerFailedAttempt | ScavengerHunt/ScavengerHunt.cpp:115-206 | the misses a round adds are exactly the failed attempts (status 1 or unknown) before the one that ends it; cancels add none |
| Round.MatchAfterTwoMisses | ScavengerHunt/ScavengerHunt.cpp:180-206 | two non-matching files followed by a match give one match, two misses and three matcher runs |
| Round.ThreeCancelsCostNothing | ScavengerHunt/ScavengerHunt.cpp:115-123 | three cancelled pickers end the round without a match, using all attempts, with the counters unchanged and no matcher run |
| Scoring.Score | ScavengerHunt/ScavengerHunt.cpp:222-243 | no contract; described by `ScoreMonotone`, `ScoreBounds`, `ScoreFitsInt32` and the two worked examples |
| Scoring.AccuracyBonus | ScavengerHunt/ScavengerHunt.cpp:225-227 | the accuracy bonus is the ceiling of `matches/rounds · 100 · 1000`: the least integer whose product with `rounds` reaches `matches · 100000` |
| Scoring.AccuracyBonusRange | ScavengerHunt/ScavengerHunt.cpp:226-227 | no match gives 0, all rounds matched give 100000, and it never exceeds 100000 |
| Scoring.AccuracyBonusMonotone | ScavengerHunt/ScavengerHunt.cpp:226-227 | more matches never lower the accuracy bonus for the same number of rounds |
| Scoring.ScoreMonotone | ScavengerHunt/ScavengerHunt.cpp:222-243 | one more match strictly raises the total; one more miss strictly lowers it |
| Scoring.ScoreBounds | ScavengerHunt/ScavengerHunt.cpp:222-243 | the total is at most the perfect game's `100000 + 100·rounds` and at least `-20·(3·rounds)²`. It is not clamped: misses with no match give a negative score |
| Scoring.ScoreFitsInt32 | ScavengerHunt/ScavengerHunt.cpp:216-246 | up to 3454 rounds, every figure and running sum of the score fits a signed 32-bit integer |
| Scoring.ScoreEightOfTen | ScavengerHunt/ScavengerHunt.cpp:216-246 | 8 matches and 2 misses in 10 rounds give 80000 + 800 - 80 = 80720 |
| Scoring.ScoreNoMatches | ScavengerHunt/ScavengerHunt.cpp:222-243 | no match and 5 misses in 5 rounds give -500 |
| Game.PlayNthRound | ScavengerHunt/ScavengerHunt.cpp:80-211 | no contract; one pass of the round loop, described by `PlayNthRoundStep` |
| Game.PlayRounds | ScavengerHunt/ScavengerHunt.cpp:80-211 | no contract; the round loop, described by `PlayRoundsInvariant`, `HaltedStaysHalted` and `TallyNeverDecreases`, and equal to the imperative `PlayLoop` |
| Game.Play | ScavengerHunt/ScavengerHunt.cpp:49-253 | no contract; the whole game, described by `PlayRejectsExactlyBadRoundCounts`, `PlayCompleted` and `PlayStopped`, and equal to the imperative `RunGame` |
| Game.PlayNthRoundStep | ScavengerHunt/ScavengerHunt.cpp:80-97 | round `i` shows the `i`-th sample of the shuffled list, keeps the game state consistent and never lowers a counter |
| Game.PlayRoundsInvariant | ScavengerHunt/ScavengerHunt.cpp:76-211 | after the loop has run `n` rounds, the shown samples are the first ones of the shuffled list, one per round. Round `j`'s matcher runs use sample `j`. Matches are at most the rounds played, and matches plus misses at most three per round |
| Game.HaltedStaysHalted | ScavengerHunt/ScavengerHunt.cpp:100-197 | once a round stops the game (dialog error or malformed arguments), no later round runs and nothing changes |
| Game.TallyNeverDecreases | ScavengerHunt/ScavengerHunt.cpp:76-211 | neither counter goes down from one round to any later one |
| Game.PlayRejectsExactlyBadRoundCounts | ScavengerHunt/ScavengerHunt.cpp:49-55 | the game is refused with exit code 2 exactly when the round count is below 1 or above the number of samples |
| Game.PlayCompleted | ScavengerHunt/ScavengerHunt.cpp:49-253 | a finished game exits with 0 after exactly `rounds` rounds on the first `rounds` shuffled samples, in order. Matches are at most `rounds` and misses at most `3·rounds`. The score is computed from the final counters. Every sample shown is a sample found. When the names are distinct, no sample repeats and no two rounds hand the matcher the same reference path |
| Game.DistinctSamplesSeparateReferences | ScavengerHunt/ScavengerHunt.cpp:80-86 | when no sample is shown twice, matcher runs of different rounds never share a reference path |
| Game.PlayStopped | ScavengerHunt/ScavengerHunt.cpp:100-197 | a stopped game ends with exit code 3 on a dialog error and with an uncaught exception on malformed arguments. It has shown a non-empty prefix of the shuffled list of at most `rounds` samples |
| Game.PlayLoop | ScavengerHunt/ScavengerHunt.cpp:80-211 | the imperative round loop, leaving on the first stopping round, computes the same progress as the recursive description |
| Game.RunGame | ScavengerHunt/ScavengerHunt.cpp:49-253 | the main routine's validation, shuffle loop, round loop and scoring end exactly as the functional game `Play` |

## Left out

- Listing the sample folder, and exit code 1 when it cannot be opened (`ScavengerHunt/ScavengerHunt.cpp:29-45`). This is file-system I/O, so the sample names are an input.
- Console prompts, output and key-press pauses, including the pause after an unknown status. These are I/O with no effect on the counters.
- Reading the round count. Input that is not a number stores 0. A number out of the `int` range stores the type's largest or smallest value. None of these passes the check, so the program exits with code 2. The model takes the count as an integer input.
- Loading and showing pictures, and destroying the window. This is UI. The window is destroyed only after the last round. The exception on malformed arguments and the code-3 returns (`ScavengerHunt/ScavengerHunt.cpp:102`, `110`, `132`, `144`) skip that, and the model claims nothing about it.
- A sample that cannot be decoded as a picture. Every file in the folder that is not a directory becomes a sample (`ScavengerHunt/ScavengerHunt.cpp:42-43`). For such a file the load gives an empty image, and showing it raises an exception nothing catches, at the start of that round and before any attempt. The model assumes every sample decodes, so `Play` has no such outcome.
- A matcher that never exits. The wait loop (`ScavengerHunt/ScavengerHunt.cpp:171-175`) then never ends. The model assumes every picked file gets an exit status.
- The file dialog (`ScavengerHunt/ScavengerHunt.cpp:100-153`). These are operating-system calls. The dialog is reduced to a picked file, a cancel, or a failure. Every failure other than a failed `Show` ends the game with code 3.
- Starting the matcher process and polling it once a second (`ScavengerHunt/ScavengerHunt.cpp:157-178`). This is process management. It is reduced to the run's program and parameters (`Matcher.Run`, `Matcher.CommandLine`) and its exit status. A status that cannot be read stays `0xFFFFFFFF` and is unknown, so it is among the statuses the input may hold.
- Widening the reference path to wide characters (`ScavengerHunt/ScavengerHunt.cpp:156`). The program converts it byte by byte, and the model takes the path unchanged. This agrees for ASCII names. A sample name with other characters can reach the matcher as a different path from the one `SamplePath` builds.
- The random generator seeded from the clock (`ScavengerHunt/ScavengerHunt.cpp:15`). It is replaced by the drawn index pairs, each assumed in `[0, N)`.
- Scoring.AccuracyBonus: computed exactly as a rational ceiling. The program computes it in single-precision floating point, which can round up past the exact value. Working the rounding by hand, 3 matches in 5 rounds give 60001 there and 60000 here, and 3 in 10 give 30001 there and 30000 here.
- Scoring.Score: uses unbounded integers. The program uses 32-bit arithmetic, which `ScoreFitsInt32` shows agrees up to 3454 rounds. Beyond that the miss penalty can overflow, and that is not modelled.
- The exception on malformed arguments is an outcome (`Crash`) with no exit code. What the runtime does on an uncaught exception is not modelled.
