/** The bounded mouse history of `HumanSimulator` and the behaviour pattern
    `get_behavior_pattern` derives from it. */
module History {

  /** One history entry: the target of a move and the time it ended. */
  datatype Sample = Sample(x: int, y: int, t: real)

  /** The most entries the history keeps. */
  const HistoryLimit := 100

  /** Appending a sample, then dropping the oldest entry when the history
      grew past the limit. */
  function Pushed(h: seq<Sample>, s: Sample): seq<Sample> {
    var longer := h + [s];
    if |longer| > HistoryLimit then longer[1..] else longer
  }

  /** The history stays within its limit, ends with the new sample, and is
      the latest part of the old history followed by the new sample: a
      first-in first-out buffer. */
  lemma PushedBounded(h: seq<Sample>, s: Sample)
    requires |h| <= HistoryLimit
    ensures var p := Pushed(h, s);
      |p| <= HistoryLimit && p != [] && p[|p| - 1] == s &&
      (|h| < HistoryLimit ==> p == h + [s]) &&
      (|h| == HistoryLimit ==> p == h[1..] + [s])
  {
    if |h| == HistoryLimit {
      assert (h + [s])[1..] == h[1..] + [s];
    }
  }

  /** The step between two consecutive entries: its squared length and its
      duration. */
  datatype Step = Step(squaredDistance: int, duration: real)

  function StepBetween(a: Sample, b: Sample): Step {
    Step((b.x - a.x) * (b.x - a.x) + (b.y - a.y) * (b.y - a.y), b.t - a.t)
  }

  /** The steps of positive duration, in history order: the ones the
      average speed is taken over. */
  function Steps(h: seq<Sample>): seq<Step>
    decreases |h|
  {
    if |h| < 2 then []
    else
      var n := |h| - 1;
      var step := StepBetween(h[n - 1], h[n]);
      Steps(h[..n]) + (if step.duration > 0.0 then [step] else [])
  }

  /** Every counted step has positive duration, and there is at most one
      per consecutive pair. */
  lemma {:induction false} StepsPositive(h: seq<Sample>)
    ensures |Steps(h)| <= if |h| < 2 then 0 else |h| - 1
    ensures forall i | 0 <= i < |Steps(h)| :: Steps(h)[i].duration > 0.0
    decreases |h|
  {
    if |h| >= 2 {
      StepsPositive(h[..|h| - 1]);
    }
  }

  /** Entries that all carry the same time give no step, so the average
      speed is 0. */
  lemma {:induction false} SameTimeNoSteps(h: seq<Sample>)
    requires forall i | 0 <= i < |h| :: h[i].t == h[0].t
    ensures Steps(h) == []
    decreases |h|
  {
    if |h| >= 2 {
      SameTimeNoSteps(h[..|h| - 1]);
    }
  }

  /** The pattern returned for a history of two or more entries. */
  datatype Pattern = Pattern(totalActions: int, historyLength: nat, steps: seq<Step>, lastActionTime: real)

  /** The result of `get_behavior_pattern`: the empty dict or a report. */
  datatype Report = Empty | Reported(pattern: Pattern)

  /** `get_behavior_pattern()` on the current counter, history and time. */
  function BehaviorPattern(actions: int, h: seq<Sample>, lastActionTime: real): Report {
    if |h| < 2 then Empty else Reported(Pattern(actions, |h|, Steps(h), lastActionTime))
  }
}
