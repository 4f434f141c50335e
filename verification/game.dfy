/**
 A whole game as the program's main routine plays it once the sample folder
 has been listed: check the round count, shuffle the samples, play one round
 per sample from the front of the shuffled list, then score. The random draws
 and the player's attempts are inputs.
 */
module Game {
  import opened Matcher
  import opened Catalog
  import opened Round
  import opened Scoring

  /** Exit codes of the program. */
  const Success: int := 0
  const InvalidRoundCountCode: int := 2
  const OpenFileDialogError: int := 3

  /** What the game has done so far: the counters, the sample shown in each round
      started, and the matcher runs made in each of those rounds. */
  datatype GameState = GameState(tally: Tally, shown: seq<string>, calls: seq<seq<Invocation>>)

  /** The game loop after some rounds: still going, or stopped by a round. */
  datatype Progress = Running(state: GameState) | Halted(cause: Abort, state: GameState)

  /** How a game ends: scored after the last round; refused because of the round
      count (before anything is shuffled or played); stopped because the file
      picker could not be used; or ended by the exception raised when the matcher
      reports malformed arguments. */
  datatype GameOutcome =
    | Completed(state: GameState, score: ScoreBreakdown)
    | InvalidRoundCount
    | DialogFailure(state: GameState)
    | Crash(state: GameState)

  /** How the process ends: with an exit code, or terminated by an exception
      nothing catches. */
  datatype Termination = Exit(code: int) | Uncaught

  /** How each outcome ends the process. */
  function TerminationOf(o: GameOutcome): Termination
  {
    match o
    case Completed(_, _) => Exit(Success)
    case InvalidRoundCount => Exit(InvalidRoundCountCode)
    case DialogFailure(_) => Exit(OpenFileDialogError)
    case Crash(_) => Uncaught
  }

  /** Every round's script answers all three attempts. */
  predicate WellFormedScripts(scripts: seq<seq<Attempt>>)
  {
    forall i :: 0 <= i < |scripts| ==> |scripts[i]| == MaxStrikes
  }

  /** The state before the first round. */
  function InitialState(): GameState
  {
    GameState(Tally(0, 0), [], [])
  }

  /** Round `i` on the shuffled `order`: it shows `order[i]` and runs the matcher
      against that sample's path. */
  function PlayNthRound(order: seq<string>, scripts: seq<seq<Attempt>>, i: nat, st: GameState): Progress
    requires i < |order| && i < |scripts| && WellFormedScripts(scripts)
  {
    var sample := order[i];
    var r := PlayRound(SamplePath(sample), scripts[i], st.tally);
    var st' := GameState(r.tally, st.shown + [sample], st.calls + [r.calls]);
    if r.Concluded? then Running(st') else Halted(r.cause, st')
  }

  /** The game loop over the first `n` rounds; a round that aborts stops it. */
  function PlayRounds(order: seq<string>, scripts: seq<seq<Attempt>>, n: nat): Progress
    requires n <= |order| && n <= |scripts| && WellFormedScripts(scripts)
  {
    if n == 0 then Running(InitialState())
    else
      match PlayRounds(order, scripts, n - 1)
      case Halted(cause, st) => Halted(cause, st)
      case Running(st) => PlayNthRound(order, scripts, n - 1, st)
  }

  /** The game: refuse a bad round count, otherwise shuffle, play and score. */
  function Play(samples: seq<string>, rounds: int, draws: seq<Swap>, scripts: seq<seq<Attempt>>): GameOutcome
    requires |draws| == ShuffleSwapMult * |samples| && DrawsInRange(draws, |samples|)
    requires ValidRoundCount(rounds, |samples|) ==> |scripts| == rounds && WellFormedScripts(scripts)
  {
    if !ValidRoundCount(rounds, |samples|) then InvalidRoundCount
    else
      var order := ApplySwaps(samples, draws);
      match PlayRounds(order, scripts, rounds)
      case Running(st) => Completed(st, Score(st.tally.matches, st.tally.misses, rounds))
      case Halted(cause, st) => if cause == DialogError then DialogFailure(st) else Crash(st)
  }

  /** What the game state keeps true after any number of rounds. */
  ghost predicate Consistent(order: seq<string>, st: GameState)
  {
    && |st.shown| <= |order|
    && st.shown == order[..|st.shown|]
    && |st.calls| == |st.shown|
    && (forall j, i :: 0 <= j < |st.calls| && 0 <= i < |st.calls[j]| ==>
          st.calls[j][i].reference == SamplePath(st.shown[j]))
    && st.tally.matches <= |st.shown|
    && st.tally.matches + st.tally.misses <= MaxStrikes * |st.shown|
  }

  /** One round extends a consistent state by the next sample of the shuffled
      list, and its counters never go down. */
  lemma {:induction false} PlayNthRoundStep(order: seq<string>, scripts: seq<seq<Attempt>>, i: nat, st: GameState)
    requires i < |order| && i < |scripts| && WellFormedScripts(scripts)
    requires Consistent(order, st) && |st.shown| == i
    ensures var p := PlayNthRound(order, scripts, i, st);
            && Consistent(order, p.state)
            && |p.state.shown| == i + 1
            && st.tally.matches <= p.state.tally.matches
            && st.tally.misses <= p.state.tally.misses
  {
    var sample := order[i];
    var reference := SamplePath(sample);
    RoundBounds(reference, scripts[i], st.tally);
    var r := PlayRound(reference, scripts[i], st.tally);
    var st' := GameState(r.tally, st.shown + [sample], st.calls + [r.calls]);
    assert st'.shown == order[..i + 1];
    assert Consistent(order, st');
  }

  /** After `n` rounds of the loop the samples shown are the first ones of the
      shuffled list, one per round played, every matcher run of round `j` used
      the sample shown in round `j`, at most one match was counted per round,
      and matches and misses together number at most three per round. */
  lemma {:induction false} PlayRoundsInvariant(order: seq<string>, scripts: seq<seq<Attempt>>, n: nat)
    requires n <= |order| && n <= |scripts| && WellFormedScripts(scripts)
    ensures var p := PlayRounds(order, scripts, n);
            && Consistent(order, p.state)
            && (p.Running? ==> |p.state.shown| == n)
            && (p.Halted? ==> 1 <= |p.state.shown| <= n)
  {
    if n > 0 {
      PlayRoundsInvariant(order, scripts, n - 1);
      var prev := PlayRounds(order, scripts, n - 1);
      if prev.Running? {
        PlayNthRoundStep(order, scripts, n - 1, prev.state);
      }
    }
  }

  /** A stopped game stays stopped: later rounds change nothing. */
  lemma {:induction false} HaltedStaysHalted(order: seq<string>, scripts: seq<seq<Attempt>>, m: nat, n: nat)
    requires m <= n <= |order| && n <= |scripts| && WellFormedScripts(scripts)
    requires PlayRounds(order, scripts, m).Halted?
    ensures PlayRounds(order, scripts, n) == PlayRounds(order, scripts, m)
    decreases n - m
  {
    if m < n {
      HaltedStaysHalted(order, scripts, m, n - 1);
    }
  }

  /** Neither counter ever goes down from one round to a later one. */
  lemma {:induction false} TallyNeverDecreases(order: seq<string>, scripts: seq<seq<Attempt>>, m: nat, n: nat)
    requires m <= n <= |order| && n <= |scripts| && WellFormedScripts(scripts)
    ensures PlayRounds(order, scripts, m).state.tally.matches <= PlayRounds(order, scripts, n).state.tally.matches
    ensures PlayRounds(order, scripts, m).state.tally.misses <= PlayRounds(order, scripts, n).state.tally.misses
    decreases n - m
  {
    if m < n {
      TallyNeverDecreases(order, scripts, m, n - 1);
      var prev := PlayRounds(order, scripts, n - 1);
      if prev.Running? {
        PlayRoundsInvariant(order, scripts, n - 1);
        PlayNthRoundStep(order, scripts, n - 1, prev.state);
      }
    }
  }

  /** The round count is refused exactly when it is below 1 or above the number
      of samples, and then the program exits with code 2 without shuffling or
      playing. */
  lemma {:induction false} PlayRejectsExactlyBadRoundCounts(samples: seq<string>, rounds: int, draws: seq<Swap>,
                                         scripts: seq<seq<Attempt>>)
    requires |draws| == ShuffleSwapMult * |samples| && DrawsInRange(draws, |samples|)
    requires ValidRoundCount(rounds, |samples|) ==> |scripts| == rounds && WellFormedScripts(scripts)
    ensures Play(samples, rounds, draws, scripts).InvalidRoundCount? <==> (rounds < 1 || rounds > |samples|)
    ensures TerminationOf(Play(samples, rounds, draws, scripts)) == Exit(InvalidRoundCountCode)
            <==> (rounds < 1 || rounds > |samples|)
  {
  }

  /** A game that runs to the end played exactly `rounds` rounds on the first
      `rounds` samples of the shuffled list, each once and in order; the counters
      are bounded by the rounds played; the score is computed from them; and the
      program exits with code 0. With distinct sample names no sample is shown
      twice, and every sample shown is one of the samples found. */
  lemma {:induction false} PlayCompleted(samples: seq<string>, rounds: int, draws: seq<Swap>, scripts: seq<seq<Attempt>>)
    requires |draws| == ShuffleSwapMult * |samples| && DrawsInRange(draws, |samples|)
    requires ValidRoundCount(rounds, |samples|) ==> |scripts| == rounds && WellFormedScripts(scripts)
    ensures var o := Play(samples, rounds, draws, scripts);
            o.Completed? ==>
              && TerminationOf(o) == Exit(Success)
              && 1 <= rounds <= |samples|
              && o.state.shown == ApplySwaps(samples, draws)[..rounds]
              && |o.state.calls| == rounds
              && (forall j, i :: 0 <= j < rounds && 0 <= i < |o.state.calls[j]| ==>
                    o.state.calls[j][i].reference == SamplePath(o.state.shown[j]))
              && o.state.tally.matches <= rounds
              && o.state.tally.misses <= MaxStrikes * rounds
              && o.state.tally.matches + o.state.tally.misses <= MaxStrikes * rounds
              && o.score == Score(o.state.tally.matches, o.state.tally.misses, rounds)
              && (forall x :: x in o.state.shown ==> x in samples)
              && (NoDuplicates(samples) ==> NoDuplicates(o.state.shown))
              && (NoDuplicates(samples) ==> SeparateReferences(o.state))
  {
    if ValidRoundCount(rounds, |samples|) {
      var order := ApplySwaps(samples, draws);
      PlayRoundsInvariant(order, scripts, rounds);
      ShuffleIsPermutation(samples, draws);
      var p := PlayRounds(order, scripts, rounds);
      if NoDuplicates(samples) {
        DistinctSamplesSeparateReferences(order, p.state);
      }
    }
  }

  /** Matcher runs of different rounds never share a reference path. */
  ghost predicate SeparateReferences(st: GameState)
  {
    forall j1, i1, j2, i2 ::
      0 <= j1 < j2 < |st.calls| && 0 <= i1 < |st.calls[j1]| && 0 <= i2 < |st.calls[j2]| ==>
        st.calls[j1][i1].reference != st.calls[j2][i2].reference
  }

  /** When no sample is shown twice, every round's matcher runs use a reference
      path of their own. */
  lemma DistinctSamplesSeparateReferences(order: seq<string>, st: GameState)
    requires Consistent(order, st) && NoDuplicates(st.shown)
    ensures SeparateReferences(st)
  {
    forall j1, i1, j2, i2 |
      0 <= j1 < j2 < |st.calls| && 0 <= i1 < |st.calls[j1]| && 0 <= i2 < |st.calls[j2]|
      ensures st.calls[j1][i1].reference != st.calls[j2][i2].reference
    {
      SamplePathInjective(st.shown[j1], st.shown[j2]);
    }
  }

  /** A game stopped by a round stopped in round `|shown|`, after showing the
      first samples of the shuffled list; the counters are bounded as in a full
      game, and the process ends with code 3 when the file picker failed and by
      an uncaught exception when the matcher reported malformed arguments. */
  lemma {:induction false} PlayStopped(samples: seq<string>, rounds: int, draws: seq<Swap>, scripts: seq<seq<Attempt>>)
    requires |draws| == ShuffleSwapMult * |samples| && DrawsInRange(draws, |samples|)
    requires ValidRoundCount(rounds, |samples|) ==> |scripts| == rounds && WellFormedScripts(scripts)
    ensures var o := Play(samples, rounds, draws, scripts);
            (o.DialogFailure? || o.Crash?) ==>
              && (o.DialogFailure? ==> TerminationOf(o) == Exit(OpenFileDialogError))
              && (o.Crash? ==> TerminationOf(o) == Uncaught)
              && 1 <= |o.state.shown| <= rounds <= |samples|
              && o.state.shown == ApplySwaps(samples, draws)[..|o.state.shown|]
              && o.state.tally.matches + o.state.tally.misses <= MaxStrikes * |o.state.shown|
  {
    if ValidRoundCount(rounds, |samples|) {
      PlayRoundsInvariant(ApplySwaps(samples, draws), scripts, rounds);
    }
  }

  /** The main game loop: round after round from the front of the shuffled
      list, leaving as soon as a round stops the game. */
  method PlayLoop(order: seq<string>, scripts: seq<seq<Attempt>>, rounds: nat) returns (p: Progress)
    requires rounds <= |order| && rounds <= |scripts| && WellFormedScripts(scripts)
    ensures p == PlayRounds(order, scripts, rounds)
  {
    var st := InitialState();
    var curRound := 0;
    while curRound < rounds
      invariant 0 <= curRound <= rounds
      invariant PlayRounds(order, scripts, curRound) == Running(st)
    {
      p := PlayNthRound(order, scripts, curRound, st);
      assert p == PlayRounds(order, scripts, curRound + 1);
      if p.Halted? {
        HaltedStaysHalted(order, scripts, curRound + 1, rounds);
        return;
      }
      st := p.state;
      curRound := curRound + 1;
    }
    p := Running(st);
  }

  /** The main routine once the samples are listed: it refuses a bad round
      count, shuffles with the swap loop, runs the game loop and scores after the
      last round. It ends exactly as `Play` describes. */
  method RunGame(samples: seq<string>, rounds: int, draws: seq<Swap>, scripts: seq<seq<Attempt>>)
    returns (o: GameOutcome)
    requires |draws| == ShuffleSwapMult * |samples| && DrawsInRange(draws, |samples|)
    requires ValidRoundCount(rounds, |samples|) ==> |scripts| == rounds && WellFormedScripts(scripts)
    ensures o == Play(samples, rounds, draws, scripts)
  {
    if rounds < 1 || rounds > |samples| {
      return InvalidRoundCount;
    }
    var order := Shuffle(samples, draws);
    var p := PlayLoop(order, scripts, rounds);
    match p
    case Running(st) =>
      o := Completed(st, Score(st.tally.matches, st.tally.misses, rounds));
    case Halted(cause, st) =>
      o := if cause == DialogError then DialogFailure(st) else Crash(st);
  }
}
