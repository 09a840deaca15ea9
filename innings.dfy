/**
 * One innings of hand cricket: a loop over camera ticks that ends on a failed
 * frame read, on a dismissal (the two values match) or on the quit key, and
 * otherwise credits runs to the batting side.
 *
 * Both innings of the game run this loop; they differ only in whose value is
 * credited: the computer's roll while the computer bats (the user bowls), the
 * user's decoded gesture while the user bats.
 */
module Innings {
  import opened Gesture

  /** Key codes after masking with 0xFF: ord('c') and ord('q'). */
  const KeyC: int := 99
  const KeyQ: int := 113

  /** The key as the loop sees it: the polled code masked with 0xFF. */
  function KeyByte(raw: int): (k: int)
    ensures 0 <= k < 256
    ensures (raw - k) % 256 == 0
  {
    raw % 256
  }

  /**
   * One pass through the loop body: either the frame read failed, or a frame
   * arrived together with the polled key code, what the image pipeline finds in
   * the region of interest, and the computer's random roll (read only on 'c').
   */
  datatype Tick =
    | ReadFailure
    | Frame(rawKey: int, view: Detection, roll: int)

  datatype Batter = ComputerBats | UserBats

  /** How the loop ended; NoMoreInput when the supplied ticks ran out first. */
  datatype Ending = CaptureFailed | Dismissed | Quit | NoMoreInput

  /** The innings' final state: the batting side's score and its out flag. */
  datatype Outcome = Outcome(score: int, out: bool, ending: Ending)

  datatype StepResult = Continue(score: int) | Stop(outcome: Outcome)

  /** The value offered for runs on a 'c' tick. */
  function Offered(batter: Batter, gesture: int, roll: int): int
  {
    match batter
    case ComputerBats => roll
    case UserBats => gesture
  }

  /**
   * One tick of the innings loop, starting from the score so far. The loop
   * stops exactly on a terminating tick, and then with the score unchanged;
   * otherwise the score grows by the tick's credit, the guard against adding 0
   * notwithstanding.
   */
  function Step(batter: Batter, score: int, t: Tick): (r: StepResult)
    ensures r.Stop? <==> Ends(t)
    ensures r.Stop? ==> r.outcome.score == score
    ensures r.Continue? ==> r.score == score + Credit(batter, t)
  {
    match t
    case ReadFailure => Stop(Outcome(score, false, CaptureFailed))
    case Frame(rawKey, view, roll) =>
      var key := KeyByte(rawKey);
      if key == KeyC && FingerCount(view) == roll then
        Stop(Outcome(score, true, Dismissed))
      else
        var runs := Offered(batter, FingerCount(view), roll);
        var next := if key == KeyC && runs != 0 then score + runs else score;
        if key == KeyQ then Stop(Outcome(next, false, Quit)) else Continue(next)
  }

  /**
   * The innings from the given score over the remaining ticks. The supplied
   * input runs out before the innings ends exactly when no tick terminates it,
   * and then nobody is out.
   */
  function Run(batter: Batter, ticks: seq<Tick>, score: int): (r: Outcome)
    ensures r.ending == NoMoreInput <==> forall i :: 0 <= i < |ticks| ==> !Ends(ticks[i])
    ensures r.ending == NoMoreInput ==> !r.out
  {
    if ticks == [] then Outcome(score, false, NoMoreInput)
    else
      match Step(batter, score, ticks[0])
      case Stop(o) => o
      case Continue(next) =>
        assert forall i :: 1 <= i < |ticks| ==> ticks[i] == ticks[1..][i - 1];
        Run(batter, ticks[1..], next)
  }

  /**
   * The innings loop. The score starts at 0; the out flag is set only by a
   * match on a 'c' tick, and then the loop stops at once.
   */
  method PlayInnings(batter: Batter, ticks: seq<Tick>) returns (score: int, out: bool, ending: Ending)
    ensures Outcome(score, out, ending) == Run(batter, ticks, 0)
    ensures out <==> ending == Dismissed
  {
    score, out, ending := 0, false, NoMoreInput;
    var i := 0;
    while i < |ticks|
      invariant 0 <= i <= |ticks|
      invariant Run(batter, ticks[i..], score) == Run(batter, ticks, 0)
      invariant !out && ending == NoMoreInput
    {
      var t := ticks[i];
      assert ticks[i..][0] == t && ticks[i..][1..] == ticks[i + 1..];
      if t.ReadFailure? {
        ending := CaptureFailed;
        break;
      }
      var key := KeyByte(t.rawKey);
      if key == KeyC {
        var choice := CountFingers(t.view);
        if choice == t.roll {
          out, ending := true, Dismissed;
          break;
        }
        var runs := if batter == ComputerBats then t.roll else choice;
        if runs != 0 {
          score := score + runs;
        }
      }
      if key == KeyQ {
        ending := Quit;
        break;
      }
      i := i + 1;
    }
  }

  /** A tick that ends the innings, whatever the batting side and the score. */
  predicate Ends(t: Tick)
  {
    t.ReadFailure? || KeyByte(t.rawKey) == KeyQ
    || (KeyByte(t.rawKey) == KeyC && FingerCount(t.view) == t.roll)
  }

  /** The ending a terminating tick produces. */
  function EndingOf(t: Tick): Ending
  {
    if t.ReadFailure? then CaptureFailed
    else if KeyByte(t.rawKey) == KeyC && FingerCount(t.view) == t.roll then Dismissed
    else Quit
  }

  /** The computer's roll on a 'c' tick comes from randint(1, 6). */
  predicate RollOk(t: Tick)
  {
    t.Frame? && KeyByte(t.rawKey) == KeyC ==> 1 <= t.roll <= 6
  }

  predicate ValidRolls(ticks: seq<Tick>)
  {
    forall i :: 0 <= i < |ticks| ==> RollOk(ticks[i])
  }

  /** Runs a tick credits before the non-zero guard: the offered value on 'c', else nothing. */
  function Credit(batter: Batter, t: Tick): int
  {
    if t.Frame? && KeyByte(t.rawKey) == KeyC then Offered(batter, FingerCount(t.view), t.roll) else 0
  }

  function TotalCredit(batter: Batter, ticks: seq<Tick>): int
  {
    if ticks == [] then 0 else Credit(batter, ticks[0]) + TotalCredit(batter, ticks[1..])
  }

  /** Index of the first tick that ends the innings, or |ticks| when none does. */
  function FirstEnd(ticks: seq<Tick>): (k: nat)
    ensures k <= |ticks|
    ensures forall i :: 0 <= i < k ==> !Ends(ticks[i])
    ensures k < |ticks| ==> Ends(ticks[k])
  {
    if ticks == [] then 0
    else if Ends(ticks[0]) then 0
    else 1 + FirstEnd(ticks[1..])
  }

  /** A tick stops the loop exactly when it is a terminating tick, and then with its ending. */
  lemma StepStopsIffEnds(batter: Batter, score: int, t: Tick)
    ensures Step(batter, score, t).Stop? <==> Ends(t)
    ensures Ends(t) ==> Step(batter, score, t).outcome.ending == EndingOf(t)
    ensures Ends(t) ==> (Step(batter, score, t).outcome.out <==> EndingOf(t) == Dismissed)
  {
  }

  /**
   * Bowling innings (the computer bats): on a 'c' tick without a match the
   * computer's score grows by exactly its roll; the non-zero guard always passes.
   */
  lemma BowlingTickCreditsRoll(score: int, t: Tick)
    requires t.Frame? && KeyByte(t.rawKey) == KeyC && RollOk(t)
    requires FingerCount(t.view) != t.roll
    ensures Step(ComputerBats, score, t) == Continue(score + t.roll)
  {
  }

  /** On a 'c' tick with a match the score is left as it was and the out flag is set. */
  lemma MatchDismisses(batter: Batter, score: int, t: Tick)
    requires t.Frame? && KeyByte(t.rawKey) == KeyC && FingerCount(t.view) == t.roll
    ensures Step(batter, score, t) == Stop(Outcome(score, true, Dismissed))
  {
  }

  /**
   * Batting innings (the user bats): on a 'c' tick without a match the user's
   * score grows by the decoded gesture; a decoded 0 never changes the score and,
   * with a roll in [1, 6], never dismisses.
   */
  lemma BattingTickCreditsGesture(score: int, t: Tick)
    requires t.Frame? && KeyByte(t.rawKey) == KeyC
    ensures FingerCount(t.view) != t.roll ==>
              Step(UserBats, score, t) == Continue(score + FingerCount(t.view))
    ensures FingerCount(t.view) == 0 && RollOk(t) ==> Step(UserBats, score, t) == Continue(score)
  {
  }

  /** A frame whose key is neither 'c' nor 'q' changes nothing. */
  lemma OtherKeyChangesNothing(batter: Batter, score: int, t: Tick)
    requires t.Frame? && KeyByte(t.rawKey) != KeyC && KeyByte(t.rawKey) != KeyQ
    ensures Step(batter, score, t) == Continue(score)
  {
  }

  /** The out flag is true exactly when the innings ended by a match. */
  lemma {:induction false} OutIffDismissed(batter: Batter, ticks: seq<Tick>, score: int)
    ensures Run(batter, ticks, score).out <==> Run(batter, ticks, score).ending == Dismissed
  {
    if ticks != [] {
      match Step(batter, score, ticks[0])
      case Stop(o) => StepStopsIffEnds(batter, score, ticks[0]);
      case Continue(next) => OutIffDismissed(batter, ticks[1..], next);
    }
  }

  /**
   * The innings in closed form: it ends at the first terminating tick, with that
   * tick's ending (NoMoreInput if there is none), and its score is the starting
   * score plus every value offered on a 'c' tick before that point. The
   * non-zero guard plays no part: adding a zero leaves the score as it is.
   */
  lemma {:induction false} RunClosedForm(batter: Batter, ticks: seq<Tick>, score: int)
    ensures var k := FirstEnd(ticks);
      Run(batter, ticks, score) ==
        Outcome(score + TotalCredit(batter, ticks[..k]),
                k < |ticks| && EndingOf(ticks[k]) == Dismissed,
                if k < |ticks| then EndingOf(ticks[k]) else NoMoreInput)
  {
    if ticks != [] {
      var t := ticks[0];
      StepStopsIffEnds(batter, score, t);
      if Ends(t) {
        assert ticks[..0] == [];
      } else {
        var next := score + Credit(batter, t);
        assert Step(batter, score, t) == Continue(next);
        RunClosedForm(batter, ticks[1..], next);
        var k := FirstEnd(ticks);
        assert ticks[..k][0] == t && ticks[..k][1..] == ticks[1..][..k - 1];
      }
    }
  }

  /** Over the ticks a credit is never negative, so the score never decreases. */
  lemma {:induction false} TotalCreditNonNegative(batter: Batter, ticks: seq<Tick>)
    requires batter == UserBats || ValidRolls(ticks)
    ensures TotalCredit(batter, ticks) >= 0
  {
    if ticks != [] {
      assert ValidRolls(ticks) ==> RollOk(ticks[0]);
      assert ValidRolls(ticks) ==> ValidRolls(ticks[1..]) by {
        if ValidRolls(ticks) {
          forall i | 0 <= i < |ticks[1..]| ensures RollOk(ticks[1..][i]) {
            assert ticks[1..][i] == ticks[i + 1];
          }
        }
      }
      TotalCreditNonNegative(batter, ticks[1..]);
    }
  }

  /** Scores start where they are and never decrease over an innings. */
  lemma {:induction false} ScoreNeverDecreases(batter: Batter, ticks: seq<Tick>, score: int)
    requires batter == UserBats || ValidRolls(ticks)
    ensures Run(batter, ticks, score).score >= score
  {
    RunClosedForm(batter, ticks, score);
    var k := FirstEnd(ticks);
    assert ValidRolls(ticks) ==> ValidRolls(ticks[..k]) by {
      if ValidRolls(ticks) {
        forall i | 0 <= i < k ensures RollOk(ticks[..k][i]) {
          assert ticks[..k][i] == ticks[i];
        }
      }
    }
    TotalCreditNonNegative(batter, ticks[..k]);
  }

  /**
   * An innings ends once: after a terminating tick nothing more is read, so the
   * ticks that would have followed change nothing.
   */
  lemma {:induction false} LaterTicksIgnored(batter: Batter, ticks: seq<Tick>, more: seq<Tick>, score: int)
    requires Run(batter, ticks, score).ending != NoMoreInput
    ensures Run(batter, ticks + more, score) == Run(batter, ticks, score)
  {
    assert ticks != [];
    assert (ticks + more)[0] == ticks[0];
    match Step(batter, score, ticks[0])
    case Stop(o) =>
    case Continue(next) =>
      assert (ticks + more)[1..] == ticks[1..] + more;
      LaterTicksIgnored(batter, ticks[1..], more, next);
  }
}
