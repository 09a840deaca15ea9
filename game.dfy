/**
 * The whole game: the user bowls while the computer bats, then the user bats
 * while the computer bowls, and the two scores decide the match.
 */
module Game {
  import opened Gesture
  import opened Innings

  datatype Verdict = UserWins | ComputerWins | Tie

  /** The final comparison of the two scores; the out flags play no part. */
  function Decide(userScore: int, computerScore: int): (v: Verdict)
    ensures v == UserWins <==> userScore > computerScore
    ensures v == ComputerWins <==> userScore < computerScore
    ensures v == Tie <==> userScore == computerScore
  {
    if userScore > computerScore then UserWins
    else if userScore < computerScore then ComputerWins
    else Tie
  }

  /** Both innings and the verdict. */
  datatype Match = Match(computerInnings: Outcome, userInnings: Outcome, verdict: Verdict)

  /**
   * Plays the first innings (computer bats) over its ticks, then the second
   * innings (user bats) over its own ticks, each from a score of 0, and compares
   * the scores. The first innings' score is fixed before the second starts.
   */
  method HandCricket(bowlingTicks: seq<Tick>, battingTicks: seq<Tick>) returns (m: Match)
    ensures m.computerInnings == Run(ComputerBats, bowlingTicks, 0)
    ensures m.userInnings == Run(UserBats, battingTicks, 0)
    ensures m.verdict == Decide(m.userInnings.score, m.computerInnings.score)
    ensures m.computerInnings.out <==> m.computerInnings.ending == Dismissed
    ensures m.userInnings.out <==> m.userInnings.ending == Dismissed
  {
    var computerScore, isComputerDismissed, firstEnding := PlayInnings(ComputerBats, bowlingTicks);
    var userScore, isUserDismissed, secondEnding := PlayInnings(UserBats, battingTicks);
    m := Match(Outcome(computerScore, isComputerDismissed, firstEnding),
               Outcome(userScore, isUserDismissed, secondEnding),
               Decide(userScore, computerScore));
  }

  /** Exactly one verdict holds, and swapping the two scores swaps the winner. */
  lemma DecideSwaps(userScore: int, computerScore: int)
    ensures Decide(userScore, computerScore) == UserWins <==> Decide(computerScore, userScore) == ComputerWins
    ensures Decide(userScore, computerScore) == Tie <==> Decide(computerScore, userScore) == Tie
  {
  }

  /** A frame on which 'c' is pressed. */
  function Press(view: Detection, roll: int): Tick
  {
    Frame(KeyC, view, roll)
  }

  /**
   * A first innings: the user shows 3, 4, 2 against rolls 5, 1, 2. The third
   * tick matches, the computer is out, and its score is 5 + 1 = 6.
   */
  lemma BowlingExample()
    ensures Run(ComputerBats,
                [Press(Defects([true, true]), 5),
                 Press(Defects([true, true, true]), 1),
                 Press(Defects([true]), 2)], 0)
            == Outcome(6, true, Dismissed)
  {
  }

  /**
   * A second innings: the user shows 4 and 3 against rolls 1 and 6, then presses
   * 'q'. Nobody is out and the user has 4 + 3 = 7.
   */
  lemma BattingExample(view: Detection, roll: int)
    ensures Run(UserBats,
                [Press(Defects([true, false, true, true]), 1),
                 Press(Defects([false, true, true]), 6),
                 Frame(KeyQ, view, roll)], 0)
            == Outcome(7, false, Quit)
  {
    var ticks := [Press(Defects([true, false, true, true]), 1),
                  Press(Defects([false, true, true]), 6),
                  Frame(KeyQ, view, roll)];
    ValleyCountIsTrueVerdicts([true, false, true, true]);
    ValleyCountIsTrueVerdicts([false, true, true]);
    assert Run(UserBats, [ticks[2]], 7) == Outcome(7, false, Quit);
    assert ticks[1..][1..] == [ticks[2]];
    assert Run(UserBats, ticks[1..], 4) == Outcome(7, false, Quit);
  }
}
