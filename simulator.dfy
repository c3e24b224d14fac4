/** `HumanSimulator`: the object that turns high-level actions into timed
    streams of primitive input events.

    Besides the source's own fields (the configurations, the screen size,
    `last_action_time`, `mouse_history` and `action_counter`) the object
    carries the world it acts on: the events sent so far, the pointer
    position, a clock that only sleeping advances, and two injected streams
    of random values with their cursors, one for `random` and one for
    numpy's normal draws. */
module Simulator {
  import opened Common
  import opened Chance
  import opened Timing
  import opened Geometry
  import opened Events
  import opened Keyboard
  import opened History

  /** The screen size: `pyautogui.size()` unless both overrides are given
      and non-zero. */
  function ScreenSize(display: Point, width: Option<int>, height: Option<int>): Point {
    if width.Some? && width.value != 0 && height.Some? && height.value != 0 then (width.value, height.value)
    else display
  }

  /** The configurations under which no move raises: the reaction window
      is ordered and not negative and the movement times are not negative,
      so every pause is a valid sleep, and the jitter factor is above -0.1,
      so that the jitter bound `int(jitter_factor * 10)` is not negative
      (`JitterBoundNatural`) and `randint(-b, b)` has a range to draw
      from. */
  predicate Runnable(delays: DelayConfig, mouse: MouseConfig) {
    0.0 <= delays.reactionTimeMin <= delays.reactionTimeMax &&
    0.0 <= mouse.speedMin && 0.0 <= mouse.speedMax && -0.1 < mouse.jitterFactor
  }

  /** The jitter bound is not negative exactly when the factor is above
      -0.1: `int()` truncates every product in (-1, 0) to 0. */
  lemma JitterBoundNatural(jitterFactor: real)
    ensures 0 <= JitterBound(jitterFactor) <==> -0.1 < jitterFactor
  {
  }

  /** Both coordinates differ by less than 2 pixels: no move is needed. */
  predicate Near(p: Point, q: Point) {
    Abs(p.0 - q.0) < 2 && Abs(p.1 - q.1) < 2
  }

  /** `path` is the curved path the draws of `u` from position `d` make:
      `randint(2, 4)` control points from the first draw, their offsets
      from the next ones, the 50-point Bézier curve through them, and the
      curve moved point by point by the jitter drawn after the offsets. */
  ghost predicate CurveDrawn(start: Point, target: Point, u: nat -> Unit, d: nat, jitterBound: int, path: seq<Point>) {
    jitterBound >= 0 &&
    var n := RandInt(2, 4, u(d));
    path == Shifted(Geometry.Curve(start, target, ControlPoints(start, target, DrawnOffsets(u, d + 1, n, MaxOffset))),
                    DrawnOffsets(u, d + 1 + 2 * n, CurvePoints, jitterBound))
  }

  /** `curve` is the Bézier curve the draws of `u` from position `d` make,
      before its jitter. */
  ghost predicate CurveControlled(start: Point, target: Point, u: nat -> Unit, d: nat, curve: seq<Point>) {
    curve == Geometry.Curve(start, target, ControlPoints(start, target, DrawnOffsets(u, d + 1, RandInt(2, 4, u(d)), MaxOffset)))
  }

  /** The drawn curve moved by the jitter drawn after it is the drawn
      curved path. */
  lemma CurveDrawnFrom(start: Point, target: Point, u: nat -> Unit, d: nat, jitterBound: int,
                       curve: seq<Point>, e: nat, path: seq<Point>)
    requires jitterBound >= 0 && CurveControlled(start, target, u, d, curve)
    requires e == d + 1 + 2 * RandInt(2, 4, u(d))
    requires path == Shifted(curve, DrawnOffsets(u, e, |curve|, jitterBound))
    ensures CurveDrawn(start, target, u, d, jitterBound, path)
  {
  }

  /** A drawn curved path has 50 points, leaves within the jitter bound of
      its start and arrives within the jitter bound of its target. */
  lemma CurveDrawnEnds(start: Point, target: Point, u: nat -> Unit, d: nat, jitterBound: int, path: seq<Point>)
    requires CurveDrawn(start, target, u, d, jitterBound, path)
    ensures |path| == CurvePoints
    ensures Abs(path[0].0 - start.0) <= jitterBound && Abs(path[0].1 - start.1) <= jitterBound
    ensures Abs(path[|path| - 1].0 - target.0) <= jitterBound && Abs(path[|path| - 1].1 - target.1) <= jitterBound
  {
    JitteredCurveEnds(start, target, ControlPoints(start, target, DrawnOffsets(u, d + 1, RandInt(2, 4, u(d)), MaxOffset)),
                      DrawnOffsets(u, d + 1 + 2 * RandInt(2, 4, u(d)), CurvePoints, jitterBound), jitterBound, path);
  }

  /** Where the pointer is after following `path` from `start`: the last
      point of the path, or `start` when nothing moved. */
  function Landed(start: Point, path: seq<Point>): Point {
    if path == [] then start else path[|path| - 1]
  }

  /** How many values `click_human` draws for its offset before it moves:
      two for the zero offset, none otherwise. */
  function OffsetDraws(offset: Point): nat {
    if offset == (0, 0) then 2 else 0
  }

  /** The action of one idle step. */
  datatype MicroAction = MicroMove | LookAround | ScrollRandomly | SwitchTabs

  const MicroActions := [MicroMove, LookAround, ScrollRandomly, SwitchTabs]

  /** What one idle step did: the micro-action chosen, where the pointer
      was, the point a moving action aimed at and the path it took, the
      wheel steps of a random scroll, and the history entry a move pushed. */
  datatype IdleStep = IdleStep(action: MicroAction, from: Point, target: Point, path: seq<Point>,
                               scrolls: seq<Event>, entry: Option<Sample>)

  /** The events one idle step sends. */
  function StepEvents(s: IdleStep): seq<Event> {
    match s.action
    case MicroMove => Moves(s.path)
    case LookAround => Moves(s.path)
    case ScrollRandomly => s.scrolls
    case SwitchTabs => [KeyDown("ctrl"), Press("tab"), KeyUp("ctrl")]
  }

  /** A moving step pushes an entry for its target exactly when it moved. */
  predicate MoveLogged(s: IdleStep) {
    s.scrolls == [] && (s.entry.Some? <==> s.path != []) &&
    (s.entry.Some? ==> s.entry.value.x == s.target.0 && s.entry.value.y == s.target.1)
  }

  /** The step is one its micro-action can take on a `width` by `height`
      screen: a micro move aims within 20 pixels of the pointer on each
      axis, a look-around at least 100 pixels inside the edges, a random
      scroll takes one to three steps in one direction, and only the two
      moving actions touch the history. */
  predicate StepAllowed(s: IdleStep, width: int, height: int) {
    match s.action
    case MicroMove =>
      Abs(s.target.0 - s.from.0) <= 20 && Abs(s.target.1 - s.from.1) <= 20 && MoveLogged(s)
    case LookAround =>
      (s.path != [] ==> 100 <= s.target.0 <= width - 100 && 100 <= s.target.1 <= height - 100) && MoveLogged(s)
    case ScrollRandomly =>
      s.path == [] && s.entry.None? && 1 <= |s.scrolls| <= 3 &&
      ((forall i | 0 <= i < |s.scrolls| :: ScrollsToward(s.scrolls[i], Up)) ||
       (forall i | 0 <= i < |s.scrolls| :: ScrollsToward(s.scrolls[i], Down)))
    case SwitchTabs => s.path == [] && s.scrolls == [] && s.entry.None?
  }

  /** Each idle step starts where the one before it left the pointer, the
      first one at `start`. */
  predicate Chained(start: Point, steps: seq<IdleStep>) {
    (steps != [] ==> steps[0].from == start) &&
    forall i | 0 < i < |steps| :: steps[i].from == Landed(steps[i - 1].from, steps[i - 1].path)
  }

  /** Where the idle steps leave the pointer when the first starts at
      `start`. */
  function IdleEnd(start: Point, steps: seq<IdleStep>): Point {
    if steps == [] then start else Landed(steps[|steps| - 1].from, steps[|steps| - 1].path)
  }

  /** A step that starts where the chained steps left the pointer extends
      the chain. */
  lemma ChainedSnoc(start: Point, steps: seq<IdleStep>, step: IdleStep)
    requires Chained(start, steps) && step.from == IdleEnd(start, steps)
    ensures Chained(start, steps + [step])
    ensures IdleEnd(start, steps + [step]) == Landed(step.from, step.path)
  {
  }

  /** The events of the idle steps, in order. */
  function IdleEvents(steps: seq<IdleStep>): seq<Event>
    decreases |steps|
  {
    if steps == [] then [] else IdleEvents(steps[..|steps| - 1]) + StepEvents(steps[|steps| - 1])
  }

  /** The history after the idle steps' entries are pushed onto `h`. */
  function IdleHistory(h: seq<Sample>, steps: seq<IdleStep>): seq<Sample>
    decreases |steps|
  {
    if steps == [] then h
    else
      var s := steps[|steps| - 1];
      var before := IdleHistory(h, steps[..|steps| - 1]);
      if s.entry.Some? then Pushed(before, s.entry.value) else before
  }

  /** How many of the idle steps moved the pointer. */
  function IdleMoves(steps: seq<IdleStep>): nat
    decreases |steps|
  {
    if steps == [] then 0
    else IdleMoves(steps[..|steps| - 1]) + (if steps[|steps| - 1].entry.Some? then 1 else 0)
  }

  /** Idling moves at most once per step, and the history then holds the
      old entries and one per move, up to the limit. */
  lemma {:induction false} IdleHistoryLength(h: seq<Sample>, steps: seq<IdleStep>)
    requires |h| <= HistoryLimit
    ensures IdleMoves(steps) <= |steps|
    ensures |IdleHistory(h, steps)| == Min(|h| + IdleMoves(steps), HistoryLimit)
    decreases |steps|
  {
    if steps != [] {
      var s := steps[|steps| - 1];
      IdleHistoryLength(h, steps[..|steps| - 1]);
      if s.entry.Some? {
        PushedBounded(IdleHistory(h, steps[..|steps| - 1]), s.entry.value);
      }
    }
  }

  lemma NonNegativeQuotient(a: real, n: nat)
    requires a >= 0.0 && n > 0
    ensures a / n as real >= 0.0
  {
  }

  class HumanSimulator {
    const screenWidth: int
    const screenHeight: int
    const delays: DelayConfig
    const mouse: MouseConfig
    var lastActionTime: real
    var mouseHistory: seq<Sample>
    var actionCounter: int

    /** The events sent to the input layer, oldest first. */
    var trace: seq<Event>
    /** Where the pointer is. */
    var pointer: Point
    /** The clock `time.time()` reads. */
    var now: real
    /** The values `random.random()` returns, and how many were taken. */
    const uniform: nat -> Unit
    var draws: nat
    /** The values numpy's normal sampler returns, and how many were taken. */
    const normal: nat -> real
    var normals: nat

    ghost predicate Valid()
      reads this
    {
      |mouseHistory| <= HistoryLimit && Runnable(delays, mouse)
    }

    /** The source's own mutable state. */
    ghost function Record(): (real, seq<Sample>, int)
      reads this
    {
      (lastActionTime, mouseHistory, actionCounter)
    }

    /** What the input layer has seen. */
    ghost function Output(): (seq<Event>, Point)
      reads this
    {
      (trace, pointer)
    }

    /** `path` is the path a move from `start` to `target` takes when its
        first draw is `uniform(d)`: a curve exactly when that draw is below
        0.7, the one the following draws make; otherwise the eased straight
        path. */
    ghost predicate Planned(start: Point, target: Point, d: nat, path: seq<Point>, curved: bool) {
      curved == (uniform(d) < 0.7) &&
      (curved ==> CurveDrawn(start, target, uniform, d + 1, JitterBound(mouse.jitterFactor), path)) &&
      (!curved ==> path == Eased(start, target))
    }

    /** `path` is the move `move_mouse_human` makes from `start` to
        `target` when its first draw is `uniform(d)`: none within 2 pixels
        of the target, otherwise the planned path. */
    ghost predicate MovedAlong(start: Point, target: Point, d: nat, path: seq<Point>) {
      if Near(start, target) then path == [] else Planned(start, target, d, path, uniform(d) < 0.7)
    }

    /** The move to `target` along `path` is logged: no entry when no move
        happened, otherwise one more action and the target pushed onto the
        history. */
    ghost predicate Logged(history0: seq<Sample>, counter0: int, target: Point, path: seq<Point>)
      reads this
    {
      if path == [] then mouseHistory == history0 && actionCounter == counter0
      else actionCounter == counter0 + 1 && exists t :: mouseHistory == Pushed(history0, Sample(target.0, target.1, t))
    }

    /** `HumanSimulator(screen_width, screen_height, human_delay,
        mouse_config)`, run on a display of size `display` with the pointer
        at `position` at time `clock`. */
    constructor (display: Point, position: Point, clock: real,
                 width: Option<int>, height: Option<int>,
                 humanDelay: Option<DelayConfig>, mouseConfig: Option<MouseConfig>,
                 uniform: nat -> Unit, normal: nat -> real)
      requires Runnable(humanDelay.GetOr(DefaultDelays), mouseConfig.GetOr(DefaultMouse))
      ensures Valid()
      ensures (screenWidth, screenHeight) == ScreenSize(display, width, height)
      ensures delays == humanDelay.GetOr(DefaultDelays) && mouse == mouseConfig.GetOr(DefaultMouse)
      ensures lastActionTime == clock && mouseHistory == [] && actionCounter == 0
      ensures trace == [] && pointer == position && now == clock
      ensures this.uniform == uniform && this.normal == normal && draws == 0 && normals == 0
    {
      var size := ScreenSize(display, width, height);
      screenWidth := size.0;
      screenHeight := size.1;
      delays := humanDelay.GetOr(DefaultDelays);
      mouse := mouseConfig.GetOr(DefaultMouse);
      lastActionTime := clock;
      mouseHistory := [];
      actionCounter := 0;
      trace := [];
      pointer := position;
      now := clock;
      this.uniform := uniform;
      this.normal := normal;
      draws := 0;
      normals := 0;
    }

    // -------------------------------------------------------------------
    // The world

    /** `random.random()`. */
    method Random() returns (u: Unit)
      modifies this
      ensures u == uniform(old(draws)) && draws == old(draws) + 1
      ensures Record() == old(Record()) && Output() == old(Output()) && now == old(now) && normals == old(normals)
    {
      u := uniform(draws);
      draws := draws + 1;
    }

    /** One draw of numpy's normal sampler. */
    method Normal() returns (g: real)
      modifies this
      ensures g == normal(old(normals)) && normals == old(normals) + 1
      ensures Record() == old(Record()) && Output() == old(Output()) && now == old(now) && draws == old(draws)
    {
      g := normal(normals);
      normals := normals + 1;
    }

    /** `time.sleep(d)`. */
    method Sleep(d: real)
      requires d >= 0.0
      modifies this
      ensures now == old(now) + d
      ensures Record() == old(Record()) && Output() == old(Output()) && draws == old(draws) && normals == old(normals)
    {
      now := now + d;
    }

    /** A pause drawn uniformly from `[lo, hi]`. */
    method PauseBetween(lo: real, hi: real)
      requires 0.0 <= lo <= hi
      modifies this
      ensures old(now) + lo <= now <= old(now) + hi
      ensures Record() == old(Record()) && Output() == old(Output()) && normals == old(normals)
      ensures draws == old(draws) + 1
    {
      var u := Random();
      Sleep(Uniform(lo, hi, u));
    }

    /** An input event other than a move. */
    method Emit(e: Event)
      requires !e.MoveTo?
      modifies this
      ensures trace == old(trace) + [e] && pointer == old(pointer)
      ensures Record() == old(Record()) && now == old(now) && draws == old(draws) && normals == old(normals)
    {
      trace := trace + [e];
    }

    /** `pyautogui.moveTo(p)`. */
    method MoveTo(p: Point)
      modifies this
      ensures trace == old(trace) + [Events.MoveTo(p.0, p.1)] && pointer == p
      ensures Record() == old(Record()) && now == old(now) && draws == old(draws) && normals == old(normals)
    {
      trace := trace + [Events.MoveTo(p.0, p.1)];
      pointer := p;
    }

    // -------------------------------------------------------------------
    // Delays

    /** The window of `_human_delay(min_val, max_val, purpose)` is ordered
        and not negative, so its pause is a valid sleep. */
    predicate Sleepable(minVal: Option<real>, maxVal: Option<real>, purpose: Purpose)
    {
      var (lo, hi) := DelayWindow(delays, minVal, maxVal, purpose);
      var (l, h) := DelayBounds(delays, lo, hi);
      0.0 <= l <= h
    }

    /** `_human_delay(min_val, max_val, purpose)`: sleep for the clamped
        normal draw of the purpose's window, then note the time. */
    method HumanPause(minVal: Option<real>, maxVal: Option<real>, purpose: Purpose)
      requires Sleepable(minVal, maxVal, purpose)
      modifies this
      ensures var d := HumanDelay(delays, minVal, maxVal, purpose, normal(old(normals)));
        d.Some? && now == old(now) + d.value && d.value >= 0.0
      ensures lastActionTime == now
      ensures mouseHistory == old(mouseHistory) && actionCounter == old(actionCounter)
      ensures Output() == old(Output()) && draws == old(draws) && normals == old(normals) + 1
    {
      var (lo, hi) := DelayWindow(delays, minVal, maxVal, purpose);
      var g := Normal();
      var d := RandomDelay(delays, lo, hi, g);
      Sleep(d.value);
      lastActionTime := now;
    }

    // -------------------------------------------------------------------
    // Pointer paths

    /** `_add_jitter_to_path(path, jitter_factor)` with its draws. */
    method Jitter(path: seq<Point>) returns (jittered: seq<Point>)
      requires Valid()
      modifies this
      ensures |jittered| == |path|
      ensures jittered == Shifted(path, DrawnOffsets(uniform, old(draws), |path|, JitterBound(mouse.jitterFactor)))
      ensures forall i | 0 <= i < |path| ::
                Abs(jittered[i].0 - path[i].0) <= JitterBound(mouse.jitterFactor) &&
                Abs(jittered[i].1 - path[i].1) <= JitterBound(mouse.jitterFactor)
      ensures draws == old(draws) + 2 * |path|
      ensures Record() == old(Record()) && Output() == old(Output()) && now == old(now) && normals == old(normals)
    {
      var bound := JitterBound(mouse.jitterFactor);
      var offsets := DrawOffsets(|path|, bound);
      jittered := JitterPath(path, bound, offsets);
    }

    /** `n` pairs of `random.randint(-bound, bound)`, x before y. */
    method DrawOffsets(n: nat, bound: int) returns (offsets: seq<Point>)
      requires bound >= 0
      modifies this
      ensures offsets == DrawnOffsets(uniform, old(draws), n, bound) && draws == old(draws) + 2 * n
      ensures Record() == old(Record()) && Output() == old(Output()) && now == old(now) && normals == old(normals)
    {
      offsets := [];
      for i := 0 to n
        invariant offsets + DrawnOffsets(uniform, draws, n - i, bound) == DrawnOffsets(uniform, old(draws), n, bound)
        invariant draws == old(draws) + 2 * i
        invariant Record() == old(Record()) && Output() == old(Output()) && now == old(now) && normals == old(normals)
      {
        ghost var d := draws;
        ghost var rest := DrawnOffsets(uniform, d + 2, n - i - 1, bound);
        var ux := Random();
        var uy := Random();
        var o := (RandInt(-bound, bound, ux), RandInt(-bound, bound, uy));
        assert DrawnOffsets(uniform, d, n - i, bound) == [o] + rest;
        ConcatAssoc(offsets, [o], rest);
        offsets := offsets + [o];
      }
      assert offsets + DrawnOffsets(uniform, draws, 0, bound) == offsets;
    }

    /** `_generate_bezier_curve(start, end, n)` with its draws. */
    method Curve(start: Point, end: Point, n: nat) returns (curve: seq<Point>, offsets: seq<Point>)
      modifies this
      ensures offsets == DrawnOffsets(uniform, old(draws), n, MaxOffset) && draws == old(draws) + 2 * n
      ensures forall i | 0 <= i < n :: SmallOffset(offsets[i])
      ensures curve == Geometry.Curve(start, end, ControlPoints(start, end, offsets))
      ensures Record() == old(Record()) && Output() == old(Output()) && now == old(now) && normals == old(normals)
    {
      offsets := DrawOffsets(n, MaxOffset);
      curve := BezierCurve(start, end, offsets);
    }

    /** The moves along a path, each but the last (or each, with
        `pauseAfterLast`) followed by `interval` times a factor drawn from
        `[0.8, 1.2]`. */
    method Follow(path: seq<Point>, interval: real, pauseAfterLast: bool)
      requires interval >= 0.0
      modifies this
      ensures trace == old(trace) + Moves(path)
      ensures pointer == if path == [] then old(pointer) else path[|path| - 1]
      ensures now >= old(now)
      ensures Record() == old(Record()) && normals == old(normals)
    {
      for i := 0 to |path|
        invariant trace == old(trace) + Moves(path[..i])
        invariant pointer == if i == 0 then old(pointer) else path[i - 1]
        invariant now >= old(now)
        invariant Record() == old(Record()) && normals == old(normals)
      {
        MoveTo(path[i]);
        assert path[..i + 1] == path[..i] + [path[i]];
        MovesAppend(path[..i], [path[i]]);
        if i < |path| - 1 || pauseAfterLast {
          var u := Random();
          var f := Uniform(0.8, 1.2, u);
          NonNegativeProduct(interval, f);
          Sleep(interval * f);
        }
      }
      assert path[..|path|] == path;
    }

    /** `move_mouse_human(target_x, target_y, speed)`.  Within 2 pixels of
        the target nothing happens.  Otherwise, after a reaction pause, the
        pointer follows the path the draws plan (see `Planned` and
        `PlannedEnds`), the target is pushed onto the bounded history and
        the action counter grows by one. */
    method MoveMouseHuman(target: Point, speed: Option<real>) returns (path: seq<Point>, curved: bool)
      requires Valid()
      requires speed.None? || speed.value >= 0.0
      modifies this
      ensures Valid()
      ensures Near(old(pointer), target) ==>
        path == [] && Record() == old(Record()) && Output() == old(Output()) && now == old(now) &&
        draws == old(draws) && normals == old(normals)
      ensures !Near(old(pointer), target) ==>
        path != [] && trace == old(trace) + Moves(path) && pointer == path[|path| - 1] &&
        mouseHistory == Pushed(old(mouseHistory), Sample(target.0, target.1, now)) &&
        actionCounter == old(actionCounter) + 1 &&
        old(now) <= lastActionTime <= now
      ensures !Near(old(pointer), target) ==> Planned(old(pointer), target, old(draws), path, curved)
      ensures MovedAlong(old(pointer), target, old(draws), path) && pointer == Landed(old(pointer), path)
      ensures now >= old(now)
      ensures Logged(old(mouseHistory), old(actionCounter), target, path)
    {
      var start := pointer;
      if Near(start, target) {
        return [], false;
      }
      HumanPause(None, None, Reaction);
      path, curved := PlanPath(start, target);
      PlannedEnds(start, target, old(draws), path, curved);
      Traverse(path, target, speed);
    }

    /** `move_mouse_human(x, y)` seen from a caller that needs the path it
        takes, the moves it sends, where it leaves the pointer and the
        history entry it logs. */
    method ReachStart(target: Point) returns (path: seq<Point>)
      requires Valid()
      modifies this
      ensures Valid()
      ensures MovedAlong(old(pointer), target, old(draws), path) && pointer == Landed(old(pointer), path)
      ensures trace == old(trace) + Moves(path)
      ensures Logged(old(mouseHistory), old(actionCounter), target, path)
      ensures now >= old(now)
    {
      var curved;
      path, curved := MoveMouseHuman(target, None);
    }

    /** A planned path is never empty.  A curved one has 50 points, leaves
        within the jitter bound of the start and arrives within the jitter
        bound of the target; a straight one is the eased path, from the
        start exactly to the target. */
    lemma PlannedEnds(start: Point, target: Point, d: nat, path: seq<Point>, curved: bool)
      requires Planned(start, target, d, path, curved)
      ensures path != []
      ensures curved ==>
        |path| == CurvePoints &&
        Abs(path[0].0 - start.0) <= JitterBound(mouse.jitterFactor) &&
        Abs(path[0].1 - start.1) <= JitterBound(mouse.jitterFactor) &&
        Abs(path[|path| - 1].0 - target.0) <= JitterBound(mouse.jitterFactor) &&
        Abs(path[|path| - 1].1 - target.1) <= JitterBound(mouse.jitterFactor)
      ensures !curved ==> path == Eased(start, target) && path[0] == start && path[|path| - 1] == target
    {
      if curved {
        CurveDrawnEnds(start, target, uniform, d + 1, JitterBound(mouse.jitterFactor), path);
      } else {
        EasedShape(start, target);
      }
    }

    /** The move itself: the path followed over the move's duration, then
        the target logged. */
    method Traverse(path: seq<Point>, target: Point, speed: Option<real>)
      requires Valid() && path != []
      requires speed.None? || speed.value >= 0.0
      modifies this
      ensures Valid()
      ensures trace == old(trace) + Moves(path) && pointer == path[|path| - 1]
      ensures mouseHistory == Pushed(old(mouseHistory), Sample(target.0, target.1, now))
      ensures actionCounter == old(actionCounter) + 1 && lastActionTime == old(lastActionTime)
      ensures now >= old(now) && normals == old(normals)
    {
      var time := MoveTime(speed);
      var interval := time / |path| as real;
      NonNegativeQuotient(time, |path|);
      Follow(path, interval, false);
      mouseHistory := Pushed(mouseHistory, Sample(target.0, target.1, now));
      PushedBounded(old(mouseHistory), Sample(target.0, target.1, now));
      actionCounter := actionCounter + 1;
    }

    /** The path of a move: when the first draw is below 0.7 a 50-point
        Bézier curve through 2 to 4 random control points, jittered;
        otherwise the eased straight path. */
    method PlanPath(start: Point, target: Point) returns (path: seq<Point>, curved: bool)
      requires Valid()
      modifies this
      ensures Planned(start, target, old(draws), path, curved)
      ensures !curved ==> draws == old(draws) + 1
      ensures Record() == old(Record()) && Output() == old(Output()) && now == old(now) && normals == old(normals)
    {
      var u := Random();
      curved := u < 0.7;
      if curved {
        path := CurvedPath(start, target);
      } else {
        path := EasedPath(start, target);
      }
    }

    /** The curved branch of a move: a Bézier curve through 2 to 4 random
        control points, jittered. */
    method CurvedPath(start: Point, target: Point) returns (path: seq<Point>)
      requires Valid()
      modifies this
      ensures CurveDrawn(start, target, uniform, old(draws), JitterBound(mouse.jitterFactor), path)
      ensures draws == old(draws) + 1 + 2 * RandInt(2, 4, uniform(old(draws))) + 2 * CurvePoints
      ensures Record() == old(Record()) && Output() == old(Output()) && now == old(now) && normals == old(normals)
    {
      ghost var d := draws;
      var curve := ControlledCurve(start, target);
      ghost var e := draws;
      path := Jitter(curve);
      CurveDrawnFrom(start, target, uniform, d, JitterBound(mouse.jitterFactor), curve, e, path);
    }

    /** The Bézier curve of a curved move before its jitter: the number of
        control points from the first draw, their offsets from the next. */
    method ControlledCurve(start: Point, target: Point) returns (curve: seq<Point>)
      modifies this
      ensures CurveControlled(start, target, uniform, old(draws), curve) && |curve| == CurvePoints
      ensures draws == old(draws) + 1 + 2 * RandInt(2, 4, uniform(old(draws)))
      ensures Record() == old(Record()) && Output() == old(Output()) && now == old(now) && normals == old(normals)
    {
      var un := Random();
      var n := RandInt(2, 4, un);
      var offsets;
      curve, offsets := Curve(start, target, n);
    }

    /** The duration of a move: the given speed, or one drawn between the
        configured bounds. */
    method MoveTime(speed: Option<real>) returns (time: real)
      requires Valid()
      requires speed.None? || speed.value >= 0.0
      modifies this
      ensures time >= 0.0
      ensures speed.Some? ==> time == speed.value
      ensures Record() == old(Record()) && Output() == old(Output()) && now == old(now) && normals == old(normals)
    {
      if speed.Some? {
        return speed.value;
      }
      var u := Random();
      time := Uniform(mouse.speedMin, mouse.speedMax, u);
    }

    // -------------------------------------------------------------------
    // Composite actions

    /** `click_human(x, y, button, double_click, offset)`: with both
        coordinates, a move to the point shifted by `offset` (or by a draw
        of up to 3 pixels on each axis when `offset` is zero); then a
        reaction pause, one or two clicks and a thinking pause. */
    method ClickHuman(x: Option<int>, y: Option<int>, button: Button, double: bool, offset: Point)
      returns (target: Point, path: seq<Point>)
      requires Valid()
      modifies this
      ensures Valid()
      ensures trace == old(trace) + Moves(path) + ClickEvents(button, double)
      ensures x.None? || y.None? ==> path == [] && pointer == old(pointer)
      ensures x.Some? && y.Some? && offset != (0, 0) ==> target == (x.value + offset.0, y.value + offset.1)
      ensures x.Some? && y.Some? && offset == (0, 0) ==> Abs(target.0 - x.value) <= 3 && Abs(target.1 - y.value) <= 3
      ensures x.Some? && y.Some? && offset == (0, 0) ==>
        target == (x.value + RandInt(-3, 3, uniform(old(draws))), y.value + RandInt(-3, 3, uniform(old(draws) + 1)))
      ensures x.Some? && y.Some? ==> MovedAlong(old(pointer), target, old(draws) + OffsetDraws(offset), path)
      ensures pointer == Landed(old(pointer), path)
      ensures Logged(old(mouseHistory), old(actionCounter), target, path)
      ensures now >= old(now)
    {
      target, path := Approach(x, y, offset);
      ghost var moved := trace;
      Clicks(button, double);
      ConcatAssoc(old(trace), Moves(path), ClickEvents(button, double));
    }

    /** The move that starts `click_human` when both coordinates are given. */
    method Approach(x: Option<int>, y: Option<int>, offset: Point) returns (target: Point, path: seq<Point>)
      requires Valid()
      modifies this
      ensures Valid()
      ensures trace == old(trace) + Moves(path)
      ensures x.None? || y.None? ==> path == [] && pointer == old(pointer)
      ensures x.Some? && y.Some? && offset != (0, 0) ==> target == (x.value + offset.0, y.value + offset.1)
      ensures x.Some? && y.Some? && offset == (0, 0) ==> Abs(target.0 - x.value) <= 3 && Abs(target.1 - y.value) <= 3
      ensures x.Some? && y.Some? && offset == (0, 0) ==>
        target == (x.value + RandInt(-3, 3, uniform(old(draws))), y.value + RandInt(-3, 3, uniform(old(draws) + 1)))
      ensures x.Some? && y.Some? ==> MovedAlong(old(pointer), target, old(draws) + OffsetDraws(offset), path)
      ensures pointer == Landed(old(pointer), path)
      ensures Logged(old(mouseHistory), old(actionCounter), target, path)
      ensures now >= old(now)
    {
      path := [];
      target := (0, 0);
      if x.Some? && y.Some? {
        target, path := ApproachPoint(x.value, y.value, offset);
      }
    }

    /** The move to `(x, y)` shifted by the offset of `click_human`. */
    method ApproachPoint(x: int, y: int, offset: Point) returns (target: Point, path: seq<Point>)
      requires Valid()
      modifies this
      ensures Valid()
      ensures offset != (0, 0) ==> target == (x + offset.0, y + offset.1)
      ensures offset == (0, 0) ==>
        target == (x + RandInt(-3, 3, uniform(old(draws))), y + RandInt(-3, 3, uniform(old(draws) + 1)))
      ensures MovedAlong(old(pointer), target, old(draws) + OffsetDraws(offset), path)
      ensures pointer == Landed(old(pointer), path) && trace == old(trace) + Moves(path)
      ensures Logged(old(mouseHistory), old(actionCounter), target, path)
      ensures now >= old(now)
    {
      var o := ClickOffset(offset);
      target := (x + o.0, y + o.1);
      path := ReachStart(target);
    }

    /** The offset of `click_human`: the given one, or for the zero offset
        one of up to 3 pixels on each axis, drawn x first. */
    method ClickOffset(offset: Point) returns (o: Point)
      modifies this
      ensures offset != (0, 0) ==> o == offset
      ensures offset == (0, 0) ==> o == (RandInt(-3, 3, uniform(old(draws))), RandInt(-3, 3, uniform(old(draws) + 1)))
      ensures draws == old(draws) + OffsetDraws(offset)
      ensures Record() == old(Record()) && Output() == old(Output()) && now == old(now) && normals == old(normals)
    {
      o := offset;
      if offset == (0, 0) {
        var ux := Random();
        var uy := Random();
        o := (RandInt(-3, 3, ux), RandInt(-3, 3, uy));
      }
    }

    /** The clicks of `click_human` between a reaction and a thinking
        pause. */
    method Clicks(button: Button, double: bool)
      modifies this
      ensures trace == old(trace) + ClickEvents(button, double) && pointer == old(pointer)
      ensures mouseHistory == old(mouseHistory) && actionCounter == old(actionCounter) && now >= old(now)
      ensures normals == old(normals) + 2 && draws == old(draws) + (if double then 1 else 0) && lastActionTime == now
    {
      HumanPause(Some(0.05), Some(0.2), Reaction);
      if double {
        Emit(Click(button));
        PauseBetween(0.1, 0.3);
        Emit(Click(button));
      } else {
        Emit(Click(button));
      }
      HumanPause(Some(0.1), Some(0.3), Thinking);
    }

    /** The error draw for one character and, after an error, the wrong
        key and its erasure. */
    method Mistype(c: char, errorProbability: real, correctionProbability: real)
      returns (makeError: bool, errorKey: Option<char>, fixFirst: bool)
      modifies this
      ensures trace == old(trace) + Mistyped(makeError, errorKey, fixFirst) && pointer == old(pointer)
      ensures makeError == (uniform(old(draws)) < errorProbability)
      ensures errorKey == if makeError then AdjacentKey(c, uniform(old(draws) + 1)) else None
      ensures var first := FirstCorrectionDraw(c, old(draws), makeError);
        fixFirst == (errorKey.Some? && uniform(first) < correctionProbability) &&
        draws == SecondCorrectionDraw(first, errorKey, fixFirst)
      ensures errorKey.Some? ==> makeError && MayMistype(c, errorKey)
      ensures makeError ==> errorProbability > 0.0
      ensures fixFirst ==> correctionProbability > 0.0
      ensures Record() == old(Record()) && now >= old(now) && normals == old(normals)
    {
      var u := Random();
      makeError := u < errorProbability;
      errorKey := None;
      fixFirst := false;
      if makeError {
        ghost var d := draws;
        errorKey, fixFirst := WrongKey(c, correctionProbability);
        assert d == old(draws) + 1 && uniform(d) == uniform(old(draws) + 1);
      }
    }

    /** After an error: the neighbour drawn for `c`, if it has one, pressed
        and perhaps erased. */
    method WrongKey(c: char, correctionProbability: real) returns (errorKey: Option<char>, fixFirst: bool)
      modifies this
      ensures trace == old(trace) + Mistyped(true, errorKey, fixFirst) && pointer == old(pointer)
      ensures errorKey == AdjacentKey(c, uniform(old(draws)))
      ensures var first := if OnLayout(c) then old(draws) + 1 else old(draws);
        fixFirst == (errorKey.Some? && uniform(first) < correctionProbability) &&
        draws == SecondCorrectionDraw(first, errorKey, fixFirst)
      ensures errorKey.Some? ==> MayMistype(c, errorKey)
      ensures Record() == old(Record()) && now >= old(now) && normals == old(normals)
    {
      errorKey := None;
      fixFirst := false;
      if OnLayout(c) {
        var v := Random();
        errorKey := AdjacentKey(c, v);
      } else {
        OffLayoutNoKey(c, uniform(old(draws)));
      }
      if errorKey.Some? {
        fixFirst := PressWrong(errorKey.value, correctionProbability);
      }
    }

    /** The wrong key pressed and, when the first correction draw says so,
        erased after a pause. */
    method PressWrong(k: char, correctionProbability: real) returns (fixFirst: bool)
      modifies this
      ensures trace == old(trace) + Mistyped(true, Some(k), fixFirst) && pointer == old(pointer)
      ensures fixFirst == (uniform(old(draws)) < correctionProbability)
      ensures draws == SecondCorrectionDraw(old(draws), Some(k), fixFirst)
      ensures Record() == old(Record()) && now >= old(now) && normals == old(normals)
    {
      Emit(Press([k]));
      var w := Random();
      fixFirst := false;
      if w < correctionProbability {
        fixFirst := true;
        PauseBetween(0.1, 0.5);
        Emit(Press(Backspace));
        PauseBetween(0.1, 0.3);
      }
    }

    /** The intended character, pressed unless an error was made and the
        second correction draw fails. */
    method Retype(c: char, makeError: bool, errorKey: Option<char>, correctionProbability: real)
      returns (fixSecond: bool)
      modifies this
      ensures trace == old(trace) + Retyped(c, makeError, errorKey, fixSecond) && pointer == old(pointer)
      ensures fixSecond == (makeError && errorKey.Some? && uniform(old(draws)) < correctionProbability)
      ensures draws == if makeError && errorKey.Some? then old(draws) + 1 else old(draws)
      ensures fixSecond ==> correctionProbability > 0.0
      ensures Record() == old(Record()) && now == old(now) && normals == old(normals)
    {
      fixSecond := false;
      if !makeError || errorKey.None? {
        Emit(Press([c]));
      } else {
        var w := Random();
        if w < correctionProbability {
          fixSecond := true;
          Emit(Press([c]));
        }
      }
    }

    /** The events typing one character sends, with its pauses. */
    method TypeChar(c: char, pauseAfter: bool, minDelay: real, maxDelay: real,
                    errorProbability: real, correctionProbability: real) returns (slip: Slip)
      requires pauseAfter ==> 0.0 <= minDelay <= maxDelay
      modifies this
      ensures trace == old(trace) + Keystrokes(c, slip) && pointer == old(pointer)
      ensures slip == Decide(c, uniform, old(draws), errorProbability, correctionProbability)
      ensures draws == AfterChar(c, uniform, old(draws), errorProbability, correctionProbability)
      ensures normals == old(normals) + (if pauseAfter then 1 else 0)
      ensures Possible(c, slip, errorProbability, correctionProbability)
      ensures Record() == old(Record()) && now >= old(now)
    {
      var makeError, errorKey, fixFirst := Mistype(c, errorProbability, correctionProbability);
      ghost var mistyped := trace;
      var fixSecond := Retype(c, makeError, errorKey, correctionProbability);
      slip := Slip(makeError, errorKey, fixFirst, fixSecond);
      assert trace == old(trace) + Keystrokes(c, slip);
      assert draws == Decided(c, uniform, old(draws), errorProbability, correctionProbability);
      DecidePossible(c, uniform, old(draws), errorProbability, correctionProbability);
      ghost var typed := trace;
      if pauseAfter {
        var g := Normal();
        Sleep(Clamp(minDelay, maxDelay, g));
      }
      var t := Random();
      if t < 0.05 {
        PauseBetween(0.2, 0.8);
      }
      assert trace == typed;
    }

    /** `type_human(text, min_delay, max_delay, error_probability,
        error_correction_probability)`: the keystrokes of each character in
        order, a clamped normal pause between characters and, now and then,
        a longer one. */
    method TypeHuman(text: string, minDelay: real, maxDelay: real, errorProbability: real, correctionProbability: real)
      returns (slips: seq<Slip>)
      requires |text| >= 2 ==> 0.0 <= minDelay <= maxDelay
      modifies this
      ensures |slips| == |text| && trace == old(trace) + Typed(text, slips)
      ensures slips == SlipsFrom(text, uniform, old(draws), errorProbability, correctionProbability)
      ensures forall i | 0 <= i < |text| :: Possible(text[i], slips[i], errorProbability, correctionProbability)
      ensures errorProbability <= 0.0 ==> trace == old(trace) + Plain(text)
      ensures Record() == old(Record()) && pointer == old(pointer) && now >= old(now)
    {
      slips := [];
      ghost var all := SlipsFrom(text, uniform, draws, errorProbability, correctionProbability);
      for i := 0 to |text|
        invariant |slips| == i && trace == old(trace) + Typed(text[..i], slips)
        invariant slips + SlipsFrom(text[i..], uniform, draws, errorProbability, correctionProbability) == all
        invariant Record() == old(Record()) && pointer == old(pointer) && now >= old(now)
      {
        ghost var d := draws;
        var slip := TypeChar(text[i], i < |text| - 1, minDelay, maxDelay, errorProbability, correctionProbability);
        assert text[i..][1..] == text[i + 1..];
        ConcatAssoc(slips, [slip], SlipsFrom(text[i + 1..], uniform, draws, errorProbability, correctionProbability));
        TypedStep(text, slips, slip);
        ConcatAssoc(old(trace), Typed(text[..i], slips), Keystrokes(text[i], slip));
        slips := slips + [slip];
      }
      assert text[..|text|] == text;
      SlipsFromPossible(text, uniform, old(draws), errorProbability, correctionProbability);
      if errorProbability <= 0.0 {
        HighDrawsTypePlainly(text, uniform, old(draws), errorProbability, correctionProbability);
      }
    }

    /** `scroll_human(direction, clicks, x, y)`: an optional move, then
        `clicks` wheel steps of 1 to 3 notches in the direction, with a
        pause between steps. */
    method ScrollHuman(direction: Direction, clicks: int, x: Option<int>, y: Option<int>)
      returns (path: seq<Point>, scrolls: seq<Event>)
      requires Valid()
      modifies this
      ensures Valid()
      ensures trace == old(trace) + Moves(path) + scrolls
      ensures |scrolls| == Max(clicks, 0) && forall i | 0 <= i < |scrolls| :: ScrollsToward(scrolls[i], direction)
      ensures x.None? || y.None? ==> path == [] && pointer == old(pointer) && lastActionTime == old(lastActionTime)
      ensures x.Some? && y.Some? ==> MovedAlong(old(pointer), (x.value, y.value), old(draws), path)
      ensures pointer == Landed(old(pointer), path)
      ensures Logged(old(mouseHistory), old(actionCounter), (x.GetOr(0), y.GetOr(0)), path)
      ensures now >= old(now)
    {
      path := [];
      if x.Some? && y.Some? {
        path := ReachStart((x.value, y.value));
      }
      ghost var moved := trace;
      scrolls := [];
      for i := 0 to Max(clicks, 0)
        invariant trace == moved + scrolls && |scrolls| == i
        invariant forall k | 0 <= k < i :: ScrollsToward(scrolls[k], direction)
        invariant Valid() && Logged(old(mouseHistory), old(actionCounter), (x.GetOr(0), y.GetOr(0)), path)
        invariant (x.None? || y.None?) ==> lastActionTime == old(lastActionTime)
        invariant pointer == Landed(old(pointer), path)
        invariant now >= old(now)
      {
        var u := Random();
        var e := Events.Scroll(ScrollAmount(direction, u));
        Emit(e);
        scrolls := scrolls + [e];
        if i < clicks - 1 {
          PauseBetween(0.2, 0.8);
        }
      }
    }

    /** `drag_human(start_x, start_y, end_x, end_y, duration)`: a move to
        the start, a pause, the button pressed, the pointer led along a
        50-point Bézier curve with three random control points, a pause, the
        button released; the drag ends exactly on its end point. */
    method DragHuman(start: Point, end: Point, duration: Option<real>)
      returns (approach: seq<Point>, offsets: seq<Point>)
      requires Valid()
      requires duration.None? || duration.value >= 0.0
      modifies this
      ensures Valid()
      ensures |offsets| == 3 && forall i | 0 <= i < 3 :: SmallOffset(offsets[i])
      ensures trace == old(trace) + Moves(approach) + [MouseDown]
                       + Moves(Geometry.Curve(start, end, ControlPoints(start, end, offsets))) + [MouseUp]
      ensures MovedAlong(old(pointer), start, old(draws), approach)
      ensures exists e: nat :: offsets == DrawnOffsets(uniform, e, 3, MaxOffset)
      ensures pointer == end
      ensures Logged(old(mouseHistory), old(actionCounter), start, approach)
      ensures now >= old(now)
    {
      approach := ReachStart(start);
      PauseBetween(0.1, 0.3);
      Emit(MouseDown);
      ghost var e := draws + if duration.None? then 1 else 0;
      offsets := DragAlong(start, end, duration);
      assert offsets == DrawnOffsets(uniform, e, 3, MaxOffset);
      PauseBetween(0.1, 0.3);
      Emit(MouseUp);
    }

    /** The button held, the pointer led from `start` to `end` along a
        50-point Bézier curve through three random control points, over
        the given duration or one drawn from `[0.5, 1.5]`. */
    method DragAlong(start: Point, end: Point, duration: Option<real>) returns (offsets: seq<Point>)
      requires Valid()
      requires duration.None? || duration.value >= 0.0
      modifies this
      ensures Valid()
      ensures |offsets| == 3 && forall i | 0 <= i < 3 :: SmallOffset(offsets[i])
      ensures offsets == DrawnOffsets(uniform, old(draws) + if duration.None? then 1 else 0, 3, MaxOffset)
      ensures trace == old(trace) + Moves(Geometry.Curve(start, end, ControlPoints(start, end, offsets)))
      ensures pointer == end
      ensures Record() == old(Record()) && now >= old(now)
    {
      var time := duration.GetOr(0.0);
      if duration.None? {
        var u := Random();
        time := Uniform(0.5, 1.5, u);
      }
      var path;
      path, offsets := Curve(start, end, 3);
      CurveEnds(start, end, ControlPoints(start, end, offsets));
      NonNegativeQuotient(time, |path|);
      Follow(path, time / |path| as real, true);
    }

    /** `press_key_human(key, presses, interval)`: the key pressed
        `presses` times with a pause between presses; a missing interval is
        drawn once, at the first pause, and then kept.  A negative interval
        makes the first pause raise `ValueError`, after the first press. */
    method PressKeyHuman(key: string, presses: int, interval: Option<real>) returns (raised: bool)
      modifies this
      ensures raised <==> presses >= 2 && interval.Some? && interval.value < 0.0
      ensures trace == old(trace) + Presses(key, if raised then 1 else presses) && pointer == old(pointer)
      ensures draws == old(draws) + if presses >= 2 && interval.None? then 1 else 0
      ensures Record() == old(Record()) && normals == old(normals) && now >= old(now)
    {
      var pause := interval;
      for i := 0 to Max(presses, 0)
        invariant trace == old(trace) + Presses(key, i) && pointer == old(pointer)
        invariant interval.Some? ==> pause == interval
        invariant interval.None? ==> pause.None? || pause.value >= 0.0
        invariant presses >= 2 && interval.Some? && interval.value < 0.0 ==> i == 0
        invariant draws == old(draws) + if pause.None? || interval.Some? then 0 else 1
        invariant pause.None? && i > 0 ==> presses <= 1
        invariant pause.Some? && interval.None? ==> presses >= 2
        invariant Record() == old(Record()) && normals == old(normals) && now >= old(now)
      {
        Emit(Press(key));
        assert Presses(key, i + 1) == Presses(key, i) + [Press(key)];
        if i < presses - 1 {
          if pause.None? {
            var u := Random();
            pause := Some(Uniform(0.1, 0.5, u));
          }
          if pause.value < 0.0 {
            return true;
          }
          Sleep(pause.value);
        }
      }
      raised := false;
    }

    /** `hotkey_human(*keys)`: the held keys down in order, the last key
        pressed, the held keys up in reverse order, each event followed by a
        short pause.  With no keys Python raises `IndexError` before any
        event is sent. */
    method HotkeyHuman(keys: seq<string>) returns (raised: bool)
      modifies this
      ensures raised <==> keys == []
      ensures raised ==> trace == old(trace)
      ensures !raised ==> trace == old(trace) + HotkeyEvents(keys)
      ensures draws == old(draws) + if raised then 0 else 2 * |keys| - 1
      ensures normals == old(normals)
      ensures pointer == old(pointer) && Record() == old(Record()) && now >= old(now)
    {
      if keys == [] {
        return true;
      }
      raised := false;
      var n := |keys| - 1;
      HoldKeys(keys[..n]);
      Emit(Press(keys[n]));
      PauseBetween(0.05, 0.15);
      ReleaseKeys(keys[..n]);
    }

    /** `keyDown` for each held key, in order, each with a short pause. */
    method HoldKeys(held: seq<string>)
      modifies this
      ensures trace == old(trace) + Downs(held)
      ensures draws == old(draws) + |held| && normals == old(normals)
      ensures pointer == old(pointer) && Record() == old(Record()) && now >= old(now)
    {
      for i := 0 to |held|
        invariant trace == old(trace) + Downs(held[..i])
        invariant draws == old(draws) + i && normals == old(normals)
        invariant pointer == old(pointer) && Record() == old(Record()) && now >= old(now)
      {
        Emit(KeyDown(held[i]));
        assert Downs(held[..i + 1]) == Downs(held[..i]) + [KeyDown(held[i])];
        PauseBetween(0.05, 0.15);
      }
      assert held[..|held|] == held;
    }

    /** `keyUp` for each held key, in reverse order, each with a short
        pause. */
    method ReleaseKeys(held: seq<string>)
      modifies this
      ensures trace == old(trace) + Ups(held)
      ensures draws == old(draws) + |held| && normals == old(normals)
      ensures pointer == old(pointer) && Record() == old(Record()) && now >= old(now)
    {
      for i := 0 to |held|
        invariant trace == old(trace) + Ups(held)[..i]
        invariant draws == old(draws) + i && normals == old(normals)
        invariant pointer == old(pointer) && Record() == old(Record()) && now >= old(now)
      {
        Emit(KeyUp(held[|held| - 1 - i]));
        assert Ups(held)[..i + 1] == Ups(held)[..i] + [KeyUp(held[|held| - 1 - i])];
        PauseBetween(0.05, 0.15);
      }
      assert Ups(held)[..|held|] == Ups(held);
    }

    // -------------------------------------------------------------------
    // Idling

    /** `_micro_mouse_movement()`: a move to a point up to 20 pixels away on
        each axis. */
    method MicroMouseMovement() returns (target: Point, path: seq<Point>)
      requires Valid()
      modifies this
      ensures Valid()
      ensures Abs(target.0 - old(pointer).0) <= 20 && Abs(target.1 - old(pointer).1) <= 20
      ensures target == (old(pointer).0 + RandInt(-20, 20, uniform(old(draws))),
                         old(pointer).1 + RandInt(-20, 20, uniform(old(draws) + 1)))
      ensures MovedAlong(old(pointer), target, old(draws) + 2, path) && pointer == Landed(old(pointer), path)
      ensures trace == old(trace) + Moves(path)
      ensures Logged(old(mouseHistory), old(actionCounter), target, path)
      ensures now >= old(now)
    {
      var (x, y) := pointer;
      var ux := Random();
      var uy := Random();
      target := (x + RandInt(-20, 20, ux), y + RandInt(-20, 20, uy));
      path := ReachStart(target);
    }

    /** `_look_around()`: a move to a point at least 100 pixels inside the
        screen's edges, then a pause.  `random.randint` raises `ValueError`
        when the screen is narrower or lower than 200 pixels. */
    method LookAround() returns (raised: bool, target: Point, path: seq<Point>)
      requires Valid()
      modifies this
      ensures Valid()
      ensures raised <==> screenWidth < 200 || screenHeight < 200
      ensures raised ==> path == [] && Output() == old(Output()) && Record() == old(Record())
      ensures !raised ==> 100 <= target.0 <= screenWidth - 100 && 100 <= target.1 <= screenHeight - 100
      ensures !raised ==>
        target == (RandInt(100, screenWidth - 100, uniform(old(draws))),
                   RandInt(100, screenHeight - 100, uniform(old(draws) + 1))) &&
        MovedAlong(old(pointer), target, old(draws) + 2, path)
      ensures pointer == Landed(old(pointer), path)
      ensures trace == old(trace) + Moves(path)
      ensures Logged(old(mouseHistory), old(actionCounter), target, path)
      ensures now >= old(now)
    {
      path := [];
      target := (0, 0);
      if screenWidth - 100 < 100 {
        return true, target, path;
      }
      var ux := Random();
      var x := RandInt(100, screenWidth - 100, ux);
      if screenHeight - 100 < 100 {
        return true, target, path;
      }
      var uy := Random();
      target := (x, RandInt(100, screenHeight - 100, uy));
      path := ReachStart(target);
      PauseBetween(0.3, 1.0);
      raised := false;
    }

    /** `_scroll_randomly()`: one to three steps up or down. */
    method ScrollRandomly() returns (scrolls: seq<Event>)
      requires Valid()
      modifies this
      ensures Valid()
      ensures 1 <= |scrolls| <= 3 && trace == old(trace) + scrolls
      ensures (forall i | 0 <= i < |scrolls| :: ScrollsToward(scrolls[i], Up)) ||
              (forall i | 0 <= i < |scrolls| :: ScrollsToward(scrolls[i], Down))
      ensures Record() == old(Record()) && pointer == old(pointer) && now >= old(now)
    {
      var ud := Random();
      var direction := Choice([Up, Down], ud);
      var uc := Random();
      var clicks := RandInt(1, 3, uc);
      var path;
      path, scrolls := ScrollHuman(direction, clicks, None, None);
    }

    /** `_switch_tabs()`: the hotkey ctrl+tab, then a pause. */
    method SwitchTabs()
      modifies this
      ensures trace == old(trace) + [KeyDown("ctrl"), Press("tab"), KeyUp("ctrl")]
      ensures Record() == old(Record()) && pointer == old(pointer) && now >= old(now)
    {
      var raised := HotkeyHuman(["ctrl", "tab"]);
      PauseBetween(0.5, 1.5);
    }

    /** `idle_behavior(min_duration, max_duration)`: micro-actions chosen at
        random, each followed by a pause of 0.5 to 2 seconds, until the
        drawn duration has passed.  A look-around on a screen smaller than
        200 pixels raises and ends the idling. */
    method IdleBehavior(minDuration: real, maxDuration: real) returns (raised: bool, duration: real, ghost steps: seq<IdleStep>)
      requires Valid()
      modifies this
      ensures Valid()
      ensures duration == Uniform(minDuration, maxDuration, uniform(old(draws)))
      ensures minDuration <= maxDuration ==> minDuration <= duration <= maxDuration
      ensures maxDuration <= minDuration ==> maxDuration <= duration <= minDuration
      ensures raised ==> screenWidth < 200 || screenHeight < 200
      ensures raised ==> steps != [] && steps[|steps| - 1].action == MicroAction.LookAround && steps[|steps| - 1].path == []
      ensures !raised ==> now - old(now) >= duration
      ensures now >= old(now)
      ensures trace == old(trace) + IdleEvents(steps)
      ensures mouseHistory == IdleHistory(old(mouseHistory), steps)
      ensures actionCounter == old(actionCounter) + IdleMoves(steps)
      ensures forall i | 0 <= i < |steps| :: StepAllowed(steps[i], screenWidth, screenHeight)
      ensures Chained(old(pointer), steps) && pointer == IdleEnd(old(pointer), steps)
      ensures steps != [] ==> StepDrawn(steps[0], old(draws) + 1)
    {
      var u := Random();
      duration := Uniform(minDuration, maxDuration, u);
      var start := now;
      raised := false;
      steps := [];
      while now - start < duration
        invariant IdledSince(old(trace), old(mouseHistory), old(actionCounter), old(pointer), steps)
        invariant now >= start == old(now) && !raised
        invariant steps == [] ==> draws == old(draws) + 1
        invariant steps != [] ==> StepDrawn(steps[0], old(draws) + 1)
        decreases ((start + duration - now) * 2.0).Floor
      {
        ghost var before := steps;
        raised, steps := IdleRound(old(trace), old(mouseHistory), old(actionCounter), old(pointer), steps);
        assert before == [] ==> steps[0] == steps[|before|];
        if raised {
          return;
        }
      }
    }

    /** The idle steps account for everything idling changed since the
        trace was `t0`, the history `h0`, the counter `c0` and the pointer
        at `p0`. */
    ghost predicate IdledSince(t0: seq<Event>, h0: seq<Sample>, c0: int, p0: Point, steps: seq<IdleStep>)
      reads this
    {
      Valid() && trace == t0 + IdleEvents(steps) && mouseHistory == IdleHistory(h0, steps) &&
      actionCounter == c0 + IdleMoves(steps) &&
      (forall i | 0 <= i < |steps| :: StepAllowed(steps[i], screenWidth, screenHeight)) &&
      Chained(p0, steps) && pointer == IdleEnd(p0, steps)
    }

    /** One round of the idling loop: a micro-action, then the pause after
        it unless it raised. */
    method IdleRound(ghost t0: seq<Event>, ghost h0: seq<Sample>, ghost c0: int, ghost p0: Point, ghost steps: seq<IdleStep>)
      returns (raised: bool, ghost after: seq<IdleStep>)
      requires IdledSince(t0, h0, c0, p0, steps)
      modifies this
      ensures IdledSince(t0, h0, c0, p0, after)
      ensures |after| == |steps| + 1 && after[..|steps|] == steps && StepDrawn(after[|steps|], old(draws))
      ensures raised ==> (screenWidth < 200 || screenHeight < 200) &&
                         after[|steps|].action == MicroAction.LookAround && after[|steps|].path == []
      ensures !raised ==> now >= old(now) + 0.5
      ensures now >= old(now)
    {
      ghost var step;
      raised, step := IdleAct();
      assert (steps + [step])[..|steps|] == steps;
      ConcatAssoc(t0, IdleEvents(steps), StepEvents(step));
      ChainedSnoc(p0, steps, step);
      after := steps + [step];
      if !raised {
        PauseBetween(0.5, 2.0);
      }
    }

    /** One idle step: a micro-action chosen at random and run. */
    method IdleAct() returns (raised: bool, ghost step: IdleStep)
      requires Valid()
      modifies this
      ensures Valid()
      ensures step.from == old(pointer) && StepAllowed(step, screenWidth, screenHeight)
      ensures StepDrawn(step, old(draws)) && pointer == Landed(old(pointer), step.path)
      ensures trace == old(trace) + StepEvents(step)
      ensures mouseHistory == if step.entry.Some? then Pushed(old(mouseHistory), step.entry.value) else old(mouseHistory)
      ensures actionCounter == old(actionCounter) + if step.entry.Some? then 1 else 0
      ensures raised ==> (screenWidth < 200 || screenHeight < 200) && step.action == MicroAction.LookAround && step.path == []
      ensures now >= old(now)
    {
      ghost var from := pointer;
      var ua := Random();
      var action := Choice(MicroActions, ua);
      raised := false;
      match action {
        case MicroMove =>
          step := MicroMoveStep(old(draws));
        case LookAround =>
          raised, step := LookAroundStep(old(draws));
        case ScrollRandomly =>
          var scrolls := ScrollRandomly();
          step := IdleStep(MicroAction.ScrollRandomly, from, from, [], scrolls, None);
        case SwitchTabs =>
          SwitchTabs();
          step := IdleStep(MicroAction.SwitchTabs, from, from, [], [], None);
      }
    }

    /** The draws made for an idle step whose choice is `uniform(d)`: the
        micro-action chosen, and for a moving action the target the next
        two draws give and the move whose first draw follows them. */
    ghost predicate StepDrawn(step: IdleStep, d: nat) {
      step.action == Choice(MicroActions, uniform(d)) &&
      (step.action.MicroMove? ==>
        step.target == (step.from.0 + RandInt(-20, 20, uniform(d + 1)), step.from.1 + RandInt(-20, 20, uniform(d + 2))) &&
        MovedAlong(step.from, step.target, d + 3, step.path)) &&
      (step.action.LookAround? && screenWidth >= 200 && screenHeight >= 200 ==>
        step.target == (RandInt(100, screenWidth - 100, uniform(d + 1)), RandInt(100, screenHeight - 100, uniform(d + 2))) &&
        MovedAlong(step.from, step.target, d + 3, step.path))
    }

    /** `_micro_mouse_movement()` as an idle step, chosen by the draw `d`. */
    method MicroMoveStep(ghost d: nat) returns (ghost step: IdleStep)
      requires Valid()
      requires draws == d + 1 && Choice(MicroActions, uniform(d)) == MicroAction.MicroMove
      modifies this
      ensures Valid() && StepDrawn(step, d)
      ensures step.action == MicroAction.MicroMove && step.from == old(pointer) && StepAllowed(step, screenWidth, screenHeight)
      ensures pointer == Landed(old(pointer), step.path)
      ensures trace == old(trace) + StepEvents(step)
      ensures mouseHistory == if step.entry.Some? then Pushed(old(mouseHistory), step.entry.value) else old(mouseHistory)
      ensures actionCounter == old(actionCounter) + if step.entry.Some? then 1 else 0
      ensures now >= old(now)
    {
      ghost var from, history, counter := pointer, mouseHistory, actionCounter;
      var target, path := MicroMouseMovement();
      ghost var entry := LoggedEntry(history, counter, target, path);
      step := IdleStep(MicroAction.MicroMove, from, target, path, [], entry);
      MicroMoveDrawn(step, d);
    }

    /** A micro-move whose target and move come from the draws after `d`
        is drawn as `StepDrawn` says. */
    lemma MicroMoveDrawn(step: IdleStep, d: nat)
      requires step.action == MicroAction.MicroMove && Choice(MicroActions, uniform(d)) == MicroAction.MicroMove
      requires step.target == (step.from.0 + RandInt(-20, 20, uniform(d + 1)), step.from.1 + RandInt(-20, 20, uniform(d + 2)))
      requires MovedAlong(step.from, step.target, d + 3, step.path)
      ensures StepDrawn(step, d)
    { }

    /** `_look_around()` as an idle step, chosen by the draw `d`. */
    method LookAroundStep(ghost d: nat) returns (raised: bool, ghost step: IdleStep)
      requires Valid()
      requires draws == d + 1 && Choice(MicroActions, uniform(d)) == MicroAction.LookAround
      modifies this
      ensures Valid() && StepDrawn(step, d)
      ensures step.action == MicroAction.LookAround && step.from == old(pointer) && StepAllowed(step, screenWidth, screenHeight)
      ensures pointer == Landed(old(pointer), step.path)
      ensures trace == old(trace) + StepEvents(step)
      ensures mouseHistory == if step.entry.Some? then Pushed(old(mouseHistory), step.entry.value) else old(mouseHistory)
      ensures actionCounter == old(actionCounter) + if step.entry.Some? then 1 else 0
      ensures raised ==> (screenWidth < 200 || screenHeight < 200) && step.path == []
      ensures now >= old(now)
    {
      ghost var from, history, counter := pointer, mouseHistory, actionCounter;
      var target, path;
      raised, target, path := LookAround();
      ghost var entry := LoggedEntry(history, counter, target, path);
      step := IdleStep(MicroAction.LookAround, from, target, path, [], entry);
    }

    /** The entry a logged move pushed onto `history`, if it moved. */
    lemma LoggedEntry(history: seq<Sample>, counter: int, target: Point, path: seq<Point>) returns (entry: Option<Sample>)
      requires Logged(history, counter, target, path)
      ensures entry.Some? <==> path != []
      ensures entry.Some? ==> entry.value.x == target.0 && entry.value.y == target.1
      ensures mouseHistory == if entry.Some? then Pushed(history, entry.value) else history
    {
      if path == [] {
        return None;
      }
      var t :| mouseHistory == Pushed(history, Sample(target.0, target.1, t));
      entry := Some(Sample(target.0, target.1, t));
    }

    // -------------------------------------------------------------------
    // Reporting

    /** `get_behavior_pattern()`: nothing below two history entries;
        otherwise the counter, the history length, the steps of positive
        duration between consecutive entries, and the last action time. */
    method GetBehaviorPattern() returns (r: Report)
      ensures r == BehaviorPattern(actionCounter, mouseHistory, lastActionTime)
    {
      var h := mouseHistory;
      if |h| < 2 {
        return Empty;
      }
      var steps: seq<Step> := [];
      for i := 1 to |h|
        invariant steps == Steps(h[..i])
      {
        var step := StepBetween(h[i - 1], h[i]);
        assert h[..i + 1][..i] == h[..i];
        if step.duration > 0.0 {
          steps := steps + [step];
        }
      }
      assert h[..|h|] == h;
      r := Reported(Pattern(actionCounter, |h|, steps, lastActionTime));
    }
  }
}
