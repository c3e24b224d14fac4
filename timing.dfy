/** The delay model of `HumanSimulator`: the two configuration records, the
    clamped bell-curve delay of `_get_random_delay` and the window
    `_human_delay` chooses for a purpose. */
module Timing {
  import opened Common

  /** `HumanDelayConfig`, in seconds. */
  datatype DelayConfig = DelayConfig(minDelay: real, maxDelay: real,
                                     thinkTimeMin: real, thinkTimeMax: real,
                                     reactionTimeMin: real, reactionTimeMax: real)

  const DefaultDelays := DelayConfig(0.1, 0.5, 0.2, 1.0, 0.1, 0.3)

  /** `MouseMoveConfig`: movement time in seconds, curve and jitter factors. */
  datatype MouseConfig = MouseConfig(speedMin: real, speedMax: real, curveFactor: real, jitterFactor: real)

  const DefaultMouse := MouseConfig(0.3, 0.8, 0.3, 0.05)

  /** The bounds `_get_random_delay` uses: a missing bound is the
      configured general delay. */
  function DelayBounds(cfg: DelayConfig, minVal: Option<real>, maxVal: Option<real>): (real, real) {
    (minVal.GetOr(cfg.minDelay), maxVal.GetOr(cfg.maxDelay))
  }

  /** `max(lo, min(hi, x))`. */
  function Clamp(lo: real, hi: real, x: real): (r: real)
    ensures lo <= hi ==> lo <= r <= hi
    ensures lo <= x <= hi ==> r == x
    ensures hi < lo ==> r == lo
  {
    var below := if hi < x then hi else x;
    if lo < below then below else lo
  }

  /** `_get_random_delay(min_val, max_val)` for the normal draw `draw`.
      numpy refuses a negative standard deviation, so inverted bounds raise
      (`None`); otherwise the draw is clamped into the bounds. */
  function RandomDelay(cfg: DelayConfig, minVal: Option<real>, maxVal: Option<real>, draw: real): (d: Option<real>)
    ensures var (lo, hi) := DelayBounds(cfg, minVal, maxVal);
      (d.Some? <==> lo <= hi) &&
      (d.Some? ==> lo <= d.value <= hi) &&
      (d.Some? && lo <= draw <= hi ==> d.value == draw)
  {
    var (lo, hi) := DelayBounds(cfg, minVal, maxVal);
    if (hi - lo) / 6.0 < 0.0 then None else Some(Clamp(lo, hi, draw))
  }

  /** The purposes `_human_delay` knows of. */
  datatype Purpose = Thinking | Reaction | Other

  /** Python's `x or default` on an optional float: `None` and `0.0` both
      give the default. */
  function OrDefault(x: Option<real>, default: real): real {
    if x.Some? && x.value != 0.0 then x.value else default
  }

  /** The bounds `_human_delay` passes on: thinking and reaction fill a
      missing or zero bound from their own configured window; any other
      purpose passes the bounds through. */
  function DelayWindow(cfg: DelayConfig, minVal: Option<real>, maxVal: Option<real>, purpose: Purpose)
    : (w: (Option<real>, Option<real>))
    ensures purpose != Other ==> w.0.Some? && w.1.Some?
    ensures purpose == Other ==> w == (minVal, maxVal)
  {
    match purpose
    case Thinking => (Some(OrDefault(minVal, cfg.thinkTimeMin)), Some(OrDefault(maxVal, cfg.thinkTimeMax)))
    case Reaction => (Some(OrDefault(minVal, cfg.reactionTimeMin)), Some(OrDefault(maxVal, cfg.reactionTimeMax)))
    case Other => (minVal, maxVal)
  }

  /** `_human_delay(min_val, max_val, purpose)` for the normal draw `draw`:
      the time slept, or `None` when numpy raises. */
  function HumanDelay(cfg: DelayConfig, minVal: Option<real>, maxVal: Option<real>, purpose: Purpose, draw: real)
    : Option<real>
  {
    var (lo, hi) := DelayWindow(cfg, minVal, maxVal, purpose);
    RandomDelay(cfg, lo, hi, draw)
  }

  /** Without explicit bounds a reaction pause lies in the configured
      reaction window and a thinking pause in the thinking window. */
  lemma ConfiguredWindows(cfg: DelayConfig, draw: real)
    requires cfg.reactionTimeMin <= cfg.reactionTimeMax
    requires cfg.thinkTimeMin <= cfg.thinkTimeMax
    ensures var d := HumanDelay(cfg, None, None, Reaction, draw);
      d.Some? && cfg.reactionTimeMin <= d.value <= cfg.reactionTimeMax
    ensures var d := HumanDelay(cfg, None, None, Thinking, draw);
      d.Some? && cfg.thinkTimeMin <= d.value <= cfg.thinkTimeMax
  {
  }

  /** An explicit bound of zero does not count for thinking or reaction:
      `0.0 or default` is the default. */
  lemma ZeroBoundReplaced(cfg: DelayConfig, maxVal: Option<real>, purpose: Purpose)
    requires purpose != Other
    ensures DelayWindow(cfg, Some(0.0), maxVal, purpose).0 == DelayWindow(cfg, None, maxVal, purpose).0
  {
  }

  /** With no bounds and no purpose the general delay window applies. */
  lemma GeneralWindow(cfg: DelayConfig, draw: real)
    requires cfg.minDelay <= cfg.maxDelay
    ensures var d := HumanDelay(cfg, None, None, Other, draw);
      d.Some? && cfg.minDelay <= d.value <= cfg.maxDelay
  {
  }

  /** Bounds in the wrong order make numpy raise before anything is slept. */
  lemma InvertedBoundsRaise(cfg: DelayConfig, lo: real, hi: real, draw: real)
    requires hi < lo
    ensures RandomDelay(cfg, Some(lo), Some(hi), draw) == None
  {
  }
}
