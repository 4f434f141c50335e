/**
 One round of the scavenger hunt: up to three attempts, each of which asks the
 player for a file through the file picker and, when a file is picked, runs the
 matcher on it. The picker and the matcher are replaced by a script: what they
 would answer on each of the three attempts. The round reads the script only
 up to the attempt that ends it.
 */
module Round {
  import opened Matcher

  /** Attempts a round allows before it is given up. */
  const MaxStrikes: nat := 3

  /** What happens on one attempt: the picker subsystem fails, the player cancels
      the picker, or the player picks a file and the matcher exits with a status. */
  datatype Attempt = PickerFailed | Cancelled | Submitted(candidate: string, status: ExitStatus)

  /** The game's running counters. */
  datatype Tally = Tally(matches: nat, misses: nat)

  /** Why a round ended the whole game: the file picker could not be used
      (exit code 3), or the matcher reported malformed arguments (an exception). */
  datatype Abort = DialogError | BadArguments

  /** How a round ends: concluded (with or without a match) or aborting the game.
      `attemptsUsed` counts the attempts the round consumed, `calls` the matcher
      runs it made, in order. */
  datatype RoundOutcome =
    | Concluded(matched: bool, attemptsUsed: nat, tally: Tally, calls: seq<Invocation>)
    | Aborted(cause: Abort, attemptsUsed: nat, tally: Tally, calls: seq<Invocation>)
  {
    /** The round stopped on an attempt that decided it: a match or an abort. */
    predicate Decided() {
      Aborted? || matched
    }
  }

  /** What one attempt leads to: the next attempt, with the counters and matcher
      runs updated, or the end of the round. */
  datatype Effect = Continue(tally: Tally, calls: seq<Invocation>) | Stop(outcome: RoundOutcome)

  /** The body of the guess loop for one attempt; `used` counts the attempts
      consumed once this one is over. A cancelled picker goes on with nothing
      changed; a picked file is run through the matcher and its status decides. */
  function AttemptEffect(reference: string, a: Attempt, used: nat, t: Tally, calls: seq<Invocation>): Effect
  {
    match a
    case PickerFailed => Stop(Aborted(DialogError, used, t, calls))
    case Cancelled => Continue(t, calls)
    case Submitted(candidate, status) =>
      var calls' := calls + [Run(reference, candidate)];
      match Classify(status)
      case Match => Stop(Concluded(true, used, Tally(t.matches + 1, t.misses), calls'))
      case InvalidRequest => Stop(Aborted(BadArguments, used, t, calls'))
      case NoMatch => Continue(Tally(t.matches, t.misses + 1), calls')
      case Unknown => Continue(Tally(t.matches, t.misses + 1), calls')
  }

  /** The guess loop from attempt `strikes` on, with the counters and matcher runs
      accumulated so far: it runs while fewer than three attempts were made and
      no match was found. */
  function PlayRoundFrom(reference: string, script: seq<Attempt>, strikes: nat, t: Tally,
                         calls: seq<Invocation>): RoundOutcome
    requires |script| == MaxStrikes && strikes <= MaxStrikes
    decreases MaxStrikes - strikes
  {
    if strikes == MaxStrikes then Concluded(false, strikes, t, calls)
    else
      match AttemptEffect(reference, script[strikes], strikes + 1, t, calls)
      case Continue(t', calls') => PlayRoundFrom(reference, script, strikes + 1, t', calls')
      case Stop(outcome) => outcome
  }

  /** One round against reference path `reference`, starting from tally `t`. */
  function PlayRound(reference: string, script: seq<Attempt>, t: Tally): RoundOutcome
    requires |script| == MaxStrikes
  {
    PlayRoundFrom(reference, script, 0, t, [])
  }

  // ---------------------------------------------------------------------------
  // A reference description of a round, by the first attempt that decides it.
  // ---------------------------------------------------------------------------

  /** An attempt that ends the round by itself: a picker failure, a match (0) or
      malformed arguments (2). */
  predicate Decisive(a: Attempt)
  {
    a.PickerFailed? || (a.Submitted? && (a.status == 0 || a.status == 2))
  }

  /** An attempt that costs a miss: a picked file whose status is neither 0 nor 2. */
  predicate Penalised(a: Attempt)
  {
    a.Submitted? && a.status != 0 && a.status != 2
  }

  /** Index of the first decisive attempt at or after `j`, or the script length
      if there is none. */
  function FirstDecisiveFrom(script: seq<Attempt>, j: nat): (k: nat)
    requires j <= |script|
    ensures j <= k <= |script|
    ensures forall i :: j <= i < k ==> !Decisive(script[i])
    ensures k < |script| ==> Decisive(script[k])
    decreases |script| - j
  {
    if j == |script| || Decisive(script[j]) then j
    else FirstDecisiveFrom(script, j + 1)
  }

  /** Index of the first decisive attempt of a round. */
  function FirstDecisive(script: seq<Attempt>): nat
  {
    FirstDecisiveFrom(script, 0)
  }

  /** Number of attempts in `[j, k)` that cost a miss. */
  function PenalisedBetween(script: seq<Attempt>, j: nat, k: nat): (n: nat)
    requires j <= k <= |script|
    ensures n <= k - j
    decreases k - j
  {
    if j == k then 0
    else (if Penalised(script[j]) then 1 else 0) + PenalisedBetween(script, j + 1, k)
  }

  /** The matcher runs the picked files in `[j, k)` lead to, in order. */
  function SubmissionsBetween(reference: string, script: seq<Attempt>, j: nat, k: nat): (calls: seq<Invocation>)
    requires j <= k <= |script|
    ensures |calls| <= k - j
    ensures forall i :: 0 <= i < |calls| ==> calls[i].reference == reference
    decreases k - j
  {
    if j == k then []
    else (if script[j].Submitted? then [Run(reference, script[j].candidate)] else [])
         + SubmissionsBetween(reference, script, j + 1, k)
  }

  /** The outcome fixed by the first decisive attempt `k`, given the counters and
      matcher runs the attempts before it produced. */
  function Settle(reference: string, script: seq<Attempt>, k: nat, t: Tally, calls: seq<Invocation>): RoundOutcome
    requires |script| == MaxStrikes && k <= MaxStrikes
    requires k < MaxStrikes ==> Decisive(script[k])
  {
    if k == MaxStrikes then Concluded(false, MaxStrikes, t, calls)
    else if script[k].PickerFailed? then Aborted(DialogError, k + 1, t, calls)
    else
      var calls' := calls + [Run(reference, script[k].candidate)];
      if script[k].status == 0 then Concluded(true, k + 1, Tally(t.matches + 1, t.misses), calls')
      else Aborted(BadArguments, k + 1, t, calls')
  }

  /** The round described without the loop: the attempts before the first
      decisive one only add their misses and matcher runs; that attempt (if any)
      settles the round, and nothing after it is looked at. */
  function RoundSpec(reference: string, script: seq<Attempt>, t: Tally): RoundOutcome
    requires |script| == MaxStrikes
  {
    var k := FirstDecisive(script);
    Settle(reference, script, k, Tally(t.matches, t.misses + PenalisedBetween(script, 0, k)),
           SubmissionsBetween(reference, script, 0, k))
  }

  /** A non-decisive attempt only adds its miss and its matcher run, then the loop
      goes on with the next attempt. */
  lemma PlayRoundFromStep(reference: string, script: seq<Attempt>, j: nat, t: Tally, calls: seq<Invocation>)
    requires |script| == MaxStrikes && j < MaxStrikes && !Decisive(script[j])
    ensures PlayRoundFrom(reference, script, j, t, calls)
            == PlayRoundFrom(reference, script, j + 1,
                             Tally(t.matches, t.misses + (if Penalised(script[j]) then 1 else 0)),
                             calls + (if script[j].Submitted? then [Run(reference, script[j].candidate)] else []))
  {
    if script[j].Cancelled? {
      assert calls + [] == calls;
    } else {
      assert Classify(script[j].status) == NoMatch || Classify(script[j].status) == Unknown;
    }
  }

  /** At the first decisive attempt (or after the third) the loop ends as Settle says. */
  lemma PlayRoundFromAtDecisive(reference: string, script: seq<Attempt>, k: nat, t: Tally, calls: seq<Invocation>)
    requires |script| == MaxStrikes && k <= MaxStrikes && (k < MaxStrikes ==> Decisive(script[k]))
    ensures PlayRoundFrom(reference, script, k, t, calls) == Settle(reference, script, k, t, calls)
  {
    if k < MaxStrikes {
      var a := script[k];
      if a.Submitted? {
        assert a.status == 0 ==> Classify(a.status) == Match;
        assert a.status == 2 ==> Classify(a.status) == InvalidRequest;
      }
    }
  }

  /** From attempt `j` on, the loop ends as Settle says once it is given the
      misses and matcher runs of the attempts before the first decisive one `k`. */
  lemma {:induction false} PlayRoundFromSettles(reference: string, script: seq<Attempt>, j: nat, k: nat, t: Tally,
                                                calls: seq<Invocation>, final: Tally, finalCalls: seq<Invocation>)
    requires |script| == MaxStrikes && j <= MaxStrikes && k == FirstDecisiveFrom(script, j)
    requires final == Tally(t.matches, t.misses + PenalisedBetween(script, j, k))
    requires finalCalls == calls + SubmissionsBetween(reference, script, j, k)
    ensures PlayRoundFrom(reference, script, j, t, calls) == Settle(reference, script, k, final, finalCalls)
    decreases MaxStrikes - j
  {
    if j < k {
      var run := if script[j].Submitted? then [Run(reference, script[j].candidate)] else [];
      var t' := Tally(t.matches, t.misses + (if Penalised(script[j]) then 1 else 0));
      assert finalCalls == (calls + run) + SubmissionsBetween(reference, script, j + 1, k);
      PlayRoundFromStep(reference, script, j, t, calls);
      PlayRoundFromSettles(reference, script, j + 1, k, t', calls + run, final, finalCalls);
    } else {
      assert calls + [] == calls;
      PlayRoundFromAtDecisive(reference, script, k, t, calls);
    }
  }

  /** The guess loop agrees with the reference description on every script. */
  lemma PlayRoundMatchesSpec(reference: string, script: seq<Attempt>, t: Tally)
    requires |script| == MaxStrikes
    ensures PlayRound(reference, script, t) == RoundSpec(reference, script, t)
  {
    var k := FirstDecisiveFrom(script, 0);
    var calls := SubmissionsBetween(reference, script, 0, k);
    assert [] + calls == calls;
    PlayRoundFromSettles(reference, script, 0, k, t, [],
                         Tally(t.matches, t.misses + PenalisedBetween(script, 0, k)), calls);
    RoundSpecUnfold(reference, script, t);
  }

  /** The reference description written out at the first decisive attempt. */
  lemma RoundSpecUnfold(reference: string, script: seq<Attempt>, t: Tally)
    requires |script| == MaxStrikes
    ensures var k := FirstDecisiveFrom(script, 0);
            RoundSpec(reference, script, t)
            == Settle(reference, script, k, Tally(t.matches, t.misses + PenalisedBetween(script, 0, k)),
                      SubmissionsBetween(reference, script, 0, k))
  {
  }

  /** The counters across one round: between one and three attempts are used, a
      match adds exactly one to the matches, neither counter goes down, and the
      misses grow by at most the attempts used, minus one when a match or an abort
      ended the round; so a round adds at most three misses, and at most two when
      it ends in a match. Every matcher run uses the round's reference. */
  lemma RoundBounds(reference: string, script: seq<Attempt>, t: Tally)
    requires |script| == MaxStrikes
    ensures var r := PlayRound(reference, script, t);
            && 1 <= r.attemptsUsed <= MaxStrikes
            && (r.Concluded? && !r.matched ==> r.attemptsUsed == MaxStrikes)
            && r.tally.matches == t.matches + (if r.Concluded? && r.matched then 1 else 0)
            && t.misses <= r.tally.misses
            && (r.tally.misses - t.misses) + (if r.Decided() then 1 else 0) <= r.attemptsUsed
            && |r.calls| <= r.attemptsUsed
            && (forall i :: 0 <= i < |r.calls| ==> r.calls[i].reference == reference)
  {
    PlayRoundMatchesSpec(reference, script, t);
  }

  /** A match ends the round at once: the attempt it came on is the last one used,
      every earlier attempt was neither a match nor an abort, and the matcher run
      on that attempt is the round's last. A round aborted by the matcher likewise
      ends on the run that reported status 2. */
  lemma RoundEndsOnDecidingAttempt(reference: string, script: seq<Attempt>, t: Tally)
    requires |script| == MaxStrikes
    ensures var r := PlayRound(reference, script, t);
            r.Decided() ==>
              && Decisive(script[r.attemptsUsed - 1])
              && (forall j :: 0 <= j < r.attemptsUsed - 1 ==> !Decisive(script[j]))
    ensures var r := PlayRound(reference, script, t);
            r.Concluded? && r.matched ==>
              && script[r.attemptsUsed - 1].Submitted? && script[r.attemptsUsed - 1].status == 0
              && |r.calls| >= 1 && r.calls[|r.calls| - 1] == Run(reference, script[r.attemptsUsed - 1].candidate)
    ensures var r := PlayRound(reference, script, t);
            r.Aborted? && r.cause == BadArguments ==>
              script[r.attemptsUsed - 1].Submitted? && script[r.attemptsUsed - 1].status == 2
  {
    PlayRoundMatchesSpec(reference, script, t);
  }

  /** Scripts that agree up to and including the first decisive attempt of one
      of them have the same first decisive attempt. */
  lemma {:induction false} FirstDecisiveFromAgreeing(s: seq<Attempt>, u: seq<Attempt>, j: nat)
    requires j <= |s| == |u|
    requires var k := FirstDecisiveFrom(s, j);
             forall i :: j <= i < |s| && i <= k ==> u[i] == s[i]
    ensures FirstDecisiveFrom(u, j) == FirstDecisiveFrom(s, j)
    decreases |s| - j
  {
    if j < |s| && !Decisive(s[j]) {
      FirstDecisiveFromAgreeing(s, u, j + 1);
    }
  }

  /** Scripts that agree on `[j, k)` add the same misses and matcher runs there. */
  lemma {:induction false} BetweenAgreeing(reference: string, s: seq<Attempt>, u: seq<Attempt>, j: nat, k: nat)
    requires j <= k <= |s| == |u|
    requires forall i :: j <= i < k ==> u[i] == s[i]
    ensures PenalisedBetween(u, j, k) == PenalisedBetween(s, j, k)
    ensures SubmissionsBetween(reference, u, j, k) == SubmissionsBetween(reference, s, j, k)
    decreases k - j
  {
    if j < k {
      BetweenAgreeing(reference, s, u, j + 1, k);
    }
  }

  /** Attempts after the one that ends a round are never consumed: any script that
      agrees on the attempts used gives the same outcome. */
  lemma RoundIgnoresUnusedAttempts(reference: string, script: seq<Attempt>, other: seq<Attempt>, t: Tally)
    requires |script| == MaxStrikes && |other| == MaxStrikes
    requires forall i :: 0 <= i < PlayRound(reference, script, t).attemptsUsed ==> other[i] == script[i]
    ensures PlayRound(reference, other, t) == PlayRound(reference, script, t)
  {
    PlayRoundMatchesSpec(reference, script, t);
    PlayRoundMatchesSpec(reference, other, t);
    var k := FirstDecisive(script);
    FirstDecisiveFromAgreeing(script, other, 0);
    BetweenAgreeing(reference, script, other, 0, k);
  }

  /** The misses a round adds are exactly the attempts before the deciding one
      whose picked file the matcher did not accept: a miss is counted per failed
      attempt, and a cancelled picker costs none. */
  lemma RoundMissesPerFailedAttempt(reference: string, script: seq<Attempt>, t: Tally)
    requires |script| == MaxStrikes
    ensures var r := PlayRound(reference, script, t);
            var k := if r.Decided() then r.attemptsUsed - 1 else r.attemptsUsed;
            r.tally.misses == t.misses + PenalisedBetween(script, 0, k)
  {
    PlayRoundMatchesSpec(reference, script, t);
  }

  /** A round whose first two picked files miss and whose third matches ends in a
      match and still adds two misses. */
  lemma MatchAfterTwoMisses(reference: string)
    ensures PlayRound(reference, [Submitted("a", 1), Submitted("b", 7), Submitted("c", 0)], Tally(0, 0))
            == Concluded(true, 3, Tally(1, 2), [Run(reference, "a"), Run(reference, "b"), Run(reference, "c")])
  {
  }

  /** A round in which the player cancels the picker three times ends without a
      match, without a miss and without running the matcher. */
  lemma ThreeCancelsCostNothing(reference: string, t: Tally)
    ensures PlayRound(reference, [Cancelled, Cancelled, Cancelled], t) == Concluded(false, 3, t, [])
  {
  }
}
