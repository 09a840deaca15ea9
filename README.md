# Hand cricket: finger-count decision rule and two-innings scoring

This project models the core of a camera-driven hand-cricket game (`app.py`).
The user plays against the computer by showing fingers to a camera.

- **Gesture decoder** (`count_fingers`). The image pipeline finds the largest
  contour in the region of interest, its convex hull and its convexity defects.
  It then computes one angle per defect. In this model, that pipeline's result
  is the input: `NoContours`, `NoDefects` or `Defects(valleys)`. There is one
  boolean per defect, meaning "its angle is at most 90 degrees". The model keeps
  the counting loop over the defects and the clamp `min(count + 1, 6)`
  (`gesture.dfy`, module `Gesture`).
- **Innings state machine** (the two `while True` loops of `hand_cricket`). Each
  pass through a loop is a `Tick`. A tick is either a failed frame read, or a
  frame together with:
  - the polled key code;
  - what the pipeline found in the frame;
  - the computer's roll.

  `PlayInnings` is that loop as a Dafny `while` loop with `break`s. It is proved
  equal to the tick-by-tick reference function `Run` (`innings.dfy`, module
  `Innings`). The two innings differ only in whose value is credited:
  - the computer's roll while the computer bats (the user bowls);
  - the decoded gesture while the user bats.

  The `Batter` parameter selects which.
- **The game** (`hand_cricket`). It plays both innings and compares the scores
  (`game.dfy`, module `Game`).

Main results:
- `RunClosedForm` gives an innings in closed form:
  - it ends at the first terminating tick, with that tick's ending;
  - the out flag is set exactly when that ending is a dismissal;
  - the score is the sum of the values offered on every `'c'` tick before that
    tick.
- As a consequence, the `!= 0` guard in front of each score update (app.py:72,
  117) never changes the score. Adding 0 and skipping the addition give the same
  result.
- `LaterTicksIgnored`: once an innings has ended, later input changes nothing.

Modelling decisions:
- The key is `waitKey(1) & 0xFF`, modelled as `rawKey % 256`. For every integer,
  including the `-1` that means "no key", Dafny's Euclidean `%` by 256 agrees
  with Python's `& 0xFF`.
- `'c'` is 99 and `'q'` is 113.
- The source loops forever until a terminating tick. The model reads a finite
  sequence of ticks instead. When that sequence runs out first, the innings
  reports the ending `NoMoreInput` with the score so far and the out flag false.
- The computer's roll comes from `random.randint(1, 6)`. In the model it is part
  of each tick. The loop is defined for any roll. The facts that need the roll
  in [1, 6] take `RollOk`/`ValidRolls` as a hypothesis.
- The first innings' flag is called `is_user_out` in the source, but it records
  that the computer is out. The model calls both flags `out`, one per innings
  outcome.
- `Defects([])` decodes to 1. That is what the loop and the clamp do with zero
  defects, although OpenCV reports "no defects" as `None` (`NoDefects`).
- When a defect's start or end point equals its far point, the angle formula
  at app.py:35 divides 0 by 0. The resulting NaN never compares `<= 90`, so
  such a defect is never counted. Each defect's verdict is an abstract input
  either way.

## Model

| member | source | states |
|---|---|---|
| Gesture.CountFingers | app.py:16-39 | Returns a value in [0, 6]. It is 0 exactly when there are no contours or no defects. With defects it is `min(v + 1, 6)`, where `v` is the number of valley verdicts counted by the loop. It equals the reference `FingerCount`. |
| Gesture.ValleyCountIsTrueVerdicts | app.py:26-37 | The count the loop accumulates is the number of true "angle <= 90" verdicts among the defects. |
| Gesture.ValleyCountBound | app.py:26-37 | There are never more valleys than defects. The two are equal exactly when every defect is a valley. |
| Gesture.FingerCountRange | app.py:16-39 | The decoded value is in [0, 6]. It is 0 if and only if there are no contours or no defects. With defects it is at least 1 and at most the number of defects plus one. |
| Gesture.FingerCountSaturates | app.py:39 | Five or more valleys always decode to 6. |
| Innings.KeyByte | app.py:60 | The masked key is in [0, 255] and agrees with the polled code modulo 256. |
| Innings.Step | app.py:50-79 | One pass through the loop body, for either batter. It stops the loop if and only if the tick is a failed read, a `'q'`, or a `'c'` whose two values match, and then leaves the score unchanged. Otherwise the score grows by the tick's credit: the offered value on `'c'`, nothing on any other key. The `!= 0` guard makes no difference. |
| Innings.Run | app.py:49-124 | The innings from a given score, tick by tick; the reference that `PlayInnings`, `RunClosedForm` and `LaterTicksIgnored` are stated against. The input runs out before the innings ends if and only if no tick terminates it, and then the out flag is false. |
| Innings.PlayInnings | app.py:49-124 | The innings loop starts from score 0. Its final score, out flag and ending equal the tick-by-tick reference `Run`. The out flag is true if and only if the loop ended by a match. |
| Innings.FirstEnd | app.py:49-79 | Gives the index of the first terminating tick: a failed read, `'q'`, or `'c'` with a match. No earlier tick terminates. When no tick terminates, the index is the input length. |
| Innings.StepStopsIffEnds | app.py:49-79 | A tick stops the loop if and only if it is a failed read, a `'q'`, or a `'c'` whose two values match. This holds whatever the batting side and score. The tick then sets the out flag exactly when it is a match. |
| Innings.BowlingTickCreditsRoll | app.py:61-73 | First innings: a `'c'` tick without a match, with a roll in [1, 6], adds exactly the computer's roll to its score. |
| Innings.MatchDismisses | app.py:69-71 | A `'c'` tick whose two values match ends the innings. The score stays unchanged and the out flag is set. |
| Innings.BattingTickCreditsGesture | app.py:106-118 | Second innings: a `'c'` tick without a match adds exactly the decoded gesture to the user's score. A decoded 0 with a roll in [1, 6] neither scores nor dismisses. |
| Innings.OtherKeyChangesNothing | app.py:60-79 | A frame whose key is neither `'c'` nor `'q'` leaves the score unchanged and the loop running. |
| Innings.OutIffDismissed | app.py:69-71 | At the end of any innings, the out flag is true if and only if the innings ended by a match. |
| Innings.RunClosedForm | app.py:49-124 | Closed form of an innings. It ends at the first terminating tick, with that tick's ending, or with `NoMoreInput` if there is none. Its score is the start score plus every value offered on a `'c'` tick before that tick. The `!= 0` guard makes no difference. |
| Innings.TotalCreditNonNegative | app.py:72-118 | With rolls in [1, 6], or in the batting innings, no tick credits a negative amount. |
| Innings.ScoreNeverDecreases | app.py:72-118 | A score never ends below where it started. This needs rolls in [1, 6] in the first innings and nothing in the second. |
| Innings.LaterTicksIgnored | app.py:49-52 | Once an innings has ended, input that would follow changes nothing: it ends exactly once. |
| Game.Decide | app.py:139-144 | The user wins if and only if the user's score is higher. The computer wins if and only if it is lower. It is a tie if and only if the scores are equal. |
| Game.DecideSwaps | app.py:139-144 | Swapping the two scores swaps the winner and keeps a tie a tie. |
| Game.HandCricket | app.py:42-144 | The first innings is `Run` with the computer batting over its own ticks. The second is `Run` with the user batting over its ticks. Each starts from 0, so the first score is fixed before the second innings begins. The verdict compares the two scores only. Each out flag holds if and only if that innings ended by a match. |
| Game.BowlingExample | app.py:61-73 | Gestures 3, 4, 2 against rolls 5, 1, 2: the computer is out on the third tick with 6 runs. |
| Game.BattingExample | app.py:106-124 | Gestures 4, 3 against rolls 1, 6, then `'q'`: the user is not out and has 7 runs. |

## Left out

- The image pipeline is not modelled: grey conversion, Gaussian blur, Otsu threshold, contour search, choice of the largest contour, convex hull and convexity defects (app.py:8-21). These are OpenCV calls whose source is not part of this model. Their result is the `Detection` input.
- The angle computation with `np.linalg.norm`, `np.arccos` and the `* 57` degree factor (app.py:32-35) is not modelled. It is floating-point code; each defect carries an abstract "angle <= 90" verdict instead.
- Camera capture and release, `cv2.flip`, the region-of-interest slice, text and rectangle drawing, `imshow`, `destroyAllWindows` and the key polling itself are not modelled. They are input/output and display. A read result and a key code are tick data.
- `random.randint(1, 6)` is not modelled as randomness. The roll is tick data, and facts that need it in [1, 6] assume `RollOk`.
- The console messages (app.py:48, 84-90, 129-144) are not modelled. They are output only; the model returns the verdict and the two innings outcomes instead.
- The endless `while True` loop is bounded by the supplied ticks. `NoMoreInput` marks input that ran out before the innings ended; the source has no such outcome.
