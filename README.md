# MemoCrawl core in Dafny

This project models the core of MemoCrawl, a desktop price crawler that
drives a real browser through simulated human input. The model covers
three parts of it:

- **The human-behaviour simulator** (`src/modules/human_simulator.py`).
  This is the `HumanSimulator` object with its mouse history, action
  counter and last-action time. It covers:
  - clamped normal delays;
  - Bézier and eased mouse paths with jitter;
  - clicks, typing with adjacent-key mistakes and corrections;
  - scrolling, dragging, key presses and hotkeys;
  - idle micro-actions and the behaviour report.
- **The configuration layer** (`src/config`):
  - the deep merge and the multi-file load;
  - the typed parsing of environment variables;
  - the rule table and the custom and logic checks of the validator;
  - the manager's dotted `get`/`set`, transactional `update`, masking of
    sensitive fields and global singleton;
  - the comparison of a configuration with its template.
- **The product database** (`src/database/database.py`):
  - the SQL text and parameter list that `search_products` builds;
  - which items `insert_from_json` passes to `insert_product`, with which
    values, and how many it counts.

Modules follow the source:

| Module | What it models |
|---|---|
| `Simulator` | the `HumanSimulator` class |
| `Timing` | the delay computations |
| `Geometry` | path geometry |
| `Keyboard` | the adjacent-key layout and the keystrokes of one character |
| `Events` | the input events and their fixed orders |
| `History` | the bounded history and behaviour report |
| `Chance` | the random primitives as functions of a draw |
| `ConfigTree` | configuration values |
| `Loader` | `loader.py` |
| `Validator` | `validator.py` |
| `Manager` | `manager.py` |
| `Template` | `template.py` |
| `Database` | `database.py` |
| `Text` | the Python string operations the code relies on |
| `Common` | small shared helpers |

### The simulator's world

The simulator's environment is held as state of the `HumanSimulator` object:

- `trace` is the sequence of events sent to the input layer
  (`pyautogui.moveTo`, `click`, `press`, `keyDown`, `keyUp`, `scroll`,
  `mouseDown`, `mouseUp`).
- `pointer` is the pointer position.
- `now` is the clock that `time.time()` reads. Only sleeps advance it, each
  by exactly the slept time.
- `uniform` and `normal` are given streams of values for `random.random()`
  and numpy's normal sampler. The counters `draws` and `normals` record how
  many were used.

In the model, each call of `random.randint`, `uniform` or `choice` takes
exactly one value of the stream and maps it to its range. This is the
model's own choice of mapping, not CPython's (see "## Left out"). Each
mapping is proved to reach every value of its range.

Each method's contract gives its new trace, pointer, history and counter
in terms of the old state, the values drawn from the streams and the pure
functions in `Geometry`, `Keyboard`, `Events` and `History`. Where a
number of draws is not stated, the position of a later draw is not known
either; "## Left out" names each such place.

- A mouse move follows `Planned` (`MovedAlong` as its callers see it): a
  jittered Bézier curve, whose control offsets and jitter are the drawn
  values, when the first draw is below 0.7, and the eased straight path
  otherwise. The pointer stops on the path's last point.
- Typing follows `Keyboard.Decide` on the draws: which characters slip,
  which wrong key is pressed and which slips are corrected.
- An idle period is a list of `IdleStep`s, chained from pointer to pointer,
  and its trace, history and counter are those the steps give.

The clock is stated exactly for a single sleep, which advances it by the
slept time. Compound operations only promise that it never runs back, and
that a timed move or idle period lasts at least its duration.

The pure functions carry the geometric and combinatorial properties:

- The curve starts and ends at its ends and lies in the box of its control
  points.
- The eased path has at least six points, ends exactly on the target and
  stays between the two ends.
- Jitter moves each point by at most the bound.
- The modifiers of a hotkey nest.
- Error-free typing presses exactly the text.

### Configuration values

Configuration values are `ConfigTree.Node`: a scalar leaf (null, boolean,
integer, real, string), a dictionary (`map<string, Node>`) or a list.

Operations that raise in Python (`KeyError`, `TypeError`, `AttributeError`,
`IndexError`, `ValueError`) return an error value (`Result`, `Outcome.crash`,
a `raised` flag) instead of being excluded by a precondition.

In these places the model follows the code as written:

- `_parse_value` reads `"1"` and `"0"` as booleans before trying numbers.
- `_validate_custom` raises `KeyError` when the configuration has no
  `database` section. The type lookup then yields `None`, which is not
  `'sqlite'`, so the code goes on to read `config['database']`.
- `_get_nested_value` treats a stored `null` exactly like a missing field.
- The time check accepts one trailing newline (`"12:30\n"`). In a Python
  regular expression, `$` also matches just before a final newline.
- Validation of a boolean against an integer rule ranges it as 0 or 1,
  because Python's `bool` is a subclass of `int`.
- `int()` rejects a text that begins or ends with one of the separators
  U+001C to U+001F, although `str.strip` would remove them; other
  whitespace around the digits is skipped.
- When `execution_times` is a dictionary, its keys are iterated, so each
  key that is not a valid time gives one error.

## Model

| member | source | states |
|---|---|---|
| Chance.RandInt | src/modules/human_simulator.py:164-165 | `random.randint(lo, hi)` lies in the closed range |
| Chance.RandIntReaches | src/modules/human_simulator.py:164-165 | every value of the range is the result of some draw |
| Chance.Uniform | src/modules/human_simulator.py:266 | `random.uniform(a, b)` lies between the two bounds, in either order |
| Chance.Choice | src/modules/human_simulator.py:420 | `random.choice(xs)` is an element of the list |
| Chance.ChoiceReaches | src/modules/human_simulator.py:561-566 | every element of the list can be chosen |
| Common.Trunc | src/modules/human_simulator.py:166-167 | Python's `int()` of a float truncates toward zero, for both signs |
| Common.TruncWithin | src/modules/human_simulator.py:260-261 | truncation never leaves an interval with whole-number ends |
| Text.Split | src/config/validator.py:115 | `str.split(sep)` gives at least one piece and no piece holds the separator |
| Text.JoinSplit | src/config/manager.py:153 | joining the pieces of a split with the separator gives the string back |
| Text.SplitJoin | src/config/manager.py:153 | splitting a join of separator-free words gives the words back |
| Text.SplitShorter | src/config/loader.py:179-180 | when the separator occurs, every piece is strictly shorter than the string |
| Text.TrimLeftCuts | src/database/database.py:99 | `lstrip` keeps a suffix not starting with whitespace and removes only whitespace |
| Text.TrimRightCuts | src/database/database.py:99 | `rstrip` keeps a prefix not ending with whitespace and removes only whitespace |
| Text.Strip | src/database/database.py:99-100 | `strip()` never lengthens and leaves an empty text or one without whitespace at either end |
| Text.IsSpace | src/database/database.py:99-100 | defines the characters `strip()` removes (`str.isspace`); what stripping does with them is stated by TrimLeftCuts, TrimRightCuts and Strip |
| Text.StripInfix | src/database/database.py:99-100 | what `strip()` keeps is an infix with only whitespace cut off on each side |
| Text.StripUnchanged | src/config/loader.py:180 | a text without whitespace at either end is its own `strip()` |
| Text.LowerChar | src/config/loader.py:145 | `lower()` maps upper-case ASCII letters to lower case and keeps every other character |
| Text.Lower | src/config/loader.py:164 | `lower()` changes length nowhere and acts character by character |
| Text.Remove | src/database/database.py:111 | `replace(c, '')` removes every `c` and keeps the count of every other character |
| Text.RemoveAppend | src/database/database.py:111 | `replace(c, '')` works piece by piece on a concatenation, so the kept characters stay in order |
| Text.StrLessTotal | src/config/validator.py:169-190 | Python's string `<` is irreflexive, asymmetric and total on different strings |
| Text.StrLessTransitive | src/config/validator.py:169-190 | Python's string `<` is transitive |
| Text.LeastExists | src/config/validator.py:141-145 | every non-empty set of strings has a least element, before every other |
| Text.SortedKeys | src/config/validator.py:141-145 | a dictionary's keys in strictly ascending order, each exactly once |
| ConfigTree.LookupPath | src/config/validator.py:113-124 | the nested lookup yields the node itself for no keys, and a result only when the first key is in a dictionary |
| ConfigTree.Lookup | src/config/validator.py:113-124 | defines the lookup of a dotted key as the nested lookup of its split segments; GetNestedValue is proved to compute it |
| ConfigTree.LookupPathAppend | src/config/validator.py:118-122 | looking up `a + b` is looking up `a` and then `b` from the node reached |
| Timing.Clamp | src/modules/human_simulator.py:113 | `max(lo, min(hi, x))` lies in the bounds when they are ordered and is `x` when `x` already lies in them |
| Timing.RandomDelay | src/modules/human_simulator.py:90-115 | a missing bound takes the general default; inverted bounds raise; otherwise the delay lies in the bounds and equals a draw that already lies in them |
| Timing.HumanDelay | src/modules/human_simulator.py:117-138 | defines the time `_human_delay` sleeps for a normal draw, as the purpose's window fed to the random delay; HumanPause sleeps exactly that and ConfiguredWindows bounds it |
| Timing.DelayWindow | src/modules/human_simulator.py:129-134 | thinking and reaction pauses always get both bounds, and any other purpose passes its bounds through |
| Timing.ConfiguredWindows | src/modules/human_simulator.py:117-136 | with no explicit bounds a reaction pause lies in the reaction window and a thinking pause in the thinking window |
| Timing.ZeroBoundReplaced | src/modules/human_simulator.py:130-134 | an explicit bound of `0.0` is replaced by the configured one (`0.0 or default`) |
| Timing.GeneralWindow | src/modules/human_simulator.py:103-113 | with no bounds and no purpose the delay lies in the general `min_delay`..`max_delay` window |
| Timing.InvertedBoundsRaise | src/modules/human_simulator.py:109-112 | a minimum above the maximum produces no delay: the negative standard deviation raises |
| Geometry.ControlPoints | src/modules/human_simulator.py:158-168 | one control point per offset |
| Geometry.ControlPointNearLine | src/modules/human_simulator.py:162-167 | each control point lies within 51 pixels, on each axis, of its evenly spaced place on the line |
| Geometry.PlaceControlPoints | src/modules/human_simulator.py:158-168 | the control-point loop computes exactly the control points of the offsets |
| Geometry.Reduce | src/modules/human_simulator.py:179-185 | one reduction round has one point fewer, each the interpolation of a neighbouring pair |
| Geometry.Evaluate | src/modules/human_simulator.py:177-187 | the in-place `while len(points) > 1` loop ends with the de Casteljau point of the polygon |
| Geometry.CasteljauAtStart | src/modules/human_simulator.py:175-187 | at `t = 0` the reduction yields the first point |
| Geometry.CasteljauAtEnd | src/modules/human_simulator.py:175-187 | at `t = 1` the reduction yields the last point |
| Geometry.MixBetween | src/modules/human_simulator.py:182-183 | an interpolation with `0 <= t <= 1` stays between its two values |
| Geometry.CasteljauInBox | src/modules/human_simulator.py:179-185 | the reduced point never leaves the bounding box of its polygon |
| Geometry.Polygon | src/modules/human_simulator.py:178 | the reduction starts from the start, the control points and the end |
| Geometry.CurveParamEnds | src/modules/human_simulator.py:174-175 | the 50 curve parameters run from exactly 0 to exactly 1 |
| Geometry.Curve | src/modules/human_simulator.py:171-189 | the curve has exactly 50 points |
| Geometry.BezierCurve | src/modules/human_simulator.py:143-189 | the generator's nested loops compute the 50 truncated curve points of the control polygon |
| Geometry.CurveEnds | src/modules/human_simulator.py:174-187 | the first curve point is the start and the last is the end |
| Geometry.CurveInBox | src/modules/human_simulator.py:174-187 | every curve point lies in any whole-numbered box that holds the start, the end and the control points |
| Geometry.JitterPath | src/modules/human_simulator.py:191-210 | the jitter loop moves each point by its own offset, so the path is the shifted path, each point at most the bound away on each axis |
| Geometry.DrawnOffsets | src/modules/human_simulator.py:164-165 | `n` offset pairs read from the stream, each within the bound on each axis |
| Geometry.Shifted | src/modules/human_simulator.py:204-208 | each point moved by its own offset, the length kept |
| Geometry.JitteredCurveEnds | src/modules/human_simulator.py:204-208 | a jittered curve begins within the bound of its start and ends within the bound of its end |
| Geometry.SmoothstepRange | src/modules/human_simulator.py:259 | the easing `t*t*(3-2t)` maps [0, 1] into itself and fixes both ends |
| Geometry.IntSqrt | src/modules/human_simulator.py:252 | the integer square root is the largest `r` with `r*r <= n` |
| Geometry.DistanceTenths | src/modules/human_simulator.py:252-253 | `int(distance / 10)` is the largest `k` with `10k` at most the distance |
| Geometry.EasedSteps | src/modules/human_simulator.py:253 | the eased path takes at least 5 steps |
| Geometry.Scale | src/modules/human_simulator.py:260-261 | a displacement scaled by `0 <= e <= 1` stays between 0 and the displacement, and is 0 at `e = 0` and all of it at `e = 1` |
| Geometry.TowardEnds | src/modules/human_simulator.py:260-261 | the eased coordinate is the start at `e = 0` and the target at `e = 1` |
| Geometry.AlongSegment | src/modules/human_simulator.py:260-261 | every eased coordinate lies between the start and the target coordinate |
| Geometry.Eased | src/modules/human_simulator.py:256 | the eased path has `num_points + 1` points |
| Geometry.EasedPath | src/modules/human_simulator.py:252-262 | the straight-path loop computes exactly the eased path |
| Geometry.EasedEnds | src/modules/human_simulator.py:256-262 | the eased path starts at the current position and ends exactly at the target |
| Geometry.EasedShape | src/modules/human_simulator.py:252-262 | the eased path has at least six points, exact ends and every point in the box the two ends span |
| Geometry.EasedInBox | src/modules/human_simulator.py:256-262 | each eased point lies in the box spanned by the start and the target |
| Events.Moves | src/modules/human_simulator.py:273-274 | one `moveTo` per path point, in order |
| Events.MovesAppend | src/modules/human_simulator.py:273-274 | moving along two paths in turn sends the moves of the joined path |
| Events.HotkeyEvents | src/modules/human_simulator.py:529-541 | a hotkey of `n` keys sends `2n - 1` events |
| Events.HotkeyNesting | src/modules/human_simulator.py:529-541 | modifier `i` goes down before the last key is pressed and comes up after it, an earlier modifier later |
| Events.SingleKeyHotkey | src/modules/human_simulator.py:530-535 | a single key is only pressed |
| Events.ScrollAmount | src/modules/human_simulator.py:448 | a wheel step is 1 to 3 notches, negative when scrolling down |
| Events.ScrollAmountsReachable | src/modules/human_simulator.py:448 | every amount of the direction's range can occur |
| Events.ClickEvents | src/modules/human_simulator.py:325-332 | one or two clicks of the chosen button |
| Events.Presses | src/modules/human_simulator.py:511-512 | the key is pressed `presses` times, and a count below one presses nothing |
| History.PushedBounded | src/modules/human_simulator.py:283-285 | the history never exceeds 100 entries and acts as a first-in first-out buffer ending with the new sample |
| History.Pushed | src/modules/human_simulator.py:283-285 | defines the append that drops the oldest entry beyond 100; PushedBounded states its bound and order |
| History.BehaviorPattern | src/modules/human_simulator.py:600-627 | defines the report of `get_behavior_pattern`; GetBehaviorPattern computes it and StepsPositive and SameTimeNoSteps state its steps |
| History.StepsPositive | src/modules/human_simulator.py:612-618 | at most one counted step per consecutive pair, each of positive duration |
| History.SameTimeNoSteps | src/modules/human_simulator.py:617-620 | entries that all carry the same time give no step, so the average speed is 0 |
| Keyboard.IndexOf | src/modules/human_simulator.py:418 | `keys.index(c)` is the first position holding `c` |
| Keyboard.AdjacentKey | src/modules/human_simulator.py:395-425 | defines `_get_adjacent_key` for one offset draw; AdjacentKeyIsNeighbour, OffLayoutNoKey, CaseInsensitive and ChosenNeighbour state what it returns |
| Keyboard.Keystrokes | src/modules/human_simulator.py:362-380 | defines one character's key presses for a decision; NoErrorPressesChar, NoNeighbourPressesChar, CorrectedError and CorrectionDrawsIndependent state them |
| Keyboard.Typed | src/modules/human_simulator.py:357-380 | defines a text's key presses as the characters' keystrokes in order; TypedStep, ErrorFreeTyping and HighDrawsTypePlainly state it |
| Keyboard.Possible | src/modules/human_simulator.py:358-380 | defines which decisions the probabilities allow; DecidePossible and SlipsFromPossible prove every drawn decision is one |
| Keyboard.NeighbourAdjacent | src/modules/human_simulator.py:416-423 | a found key sits at the drawn offset from `c`, in a row that holds `c` |
| Keyboard.NeighbourAbsent | src/modules/human_simulator.py:416-425 | a character on no row has no neighbour |
| Keyboard.NeighbourFirstRow | src/modules/human_simulator.py:416-423 | the first row holding the character decides when its neighbour exists |
| Keyboard.ChosenNeighbour | src/modules/human_simulator.py:420-423 | with the offset drawn from `[-1, 1]` a found key is directly left or right of the character |
| Keyboard.AdjacentKeyIsNeighbour | src/modules/human_simulator.py:395-425 | the adjacent key is a same-row neighbour of the lower-cased character |
| Keyboard.OffLayoutNoKey | src/modules/human_simulator.py:413-425 | a character not on the layout has no adjacent key |
| Keyboard.CaseInsensitive | src/modules/human_simulator.py:413 | an upper-case letter looks up the same key as its lower case |
| Keyboard.RowEndFallsOff | src/modules/human_simulator.py:407-423 | on each of the four rows, the left neighbour of the first key and the right neighbour of the last key fall off the row, and no key is returned |
| Keyboard.NeighbourFallsOff | src/modules/human_simulator.py:416-423 | a character on exactly one row whose neighbour falls off that row gets no key |
| Keyboard.LastKeyFallsOff | src/modules/human_simulator.py:407-423 | on each row, the right neighbour of the last key falls off the row and no key is returned |
| Keyboard.NoErrorPressesChar | src/modules/human_simulator.py:376-377 | without an error the character is pressed once |
| Keyboard.NoNeighbourPressesChar | src/modules/human_simulator.py:364-377 | an error on a key without a neighbour still presses the character |
| Keyboard.CorrectedError | src/modules/human_simulator.py:362-380 | a corrected error presses the wrong key, backspace, and the right key |
| Keyboard.CorrectionDrawsIndependent | src/modules/human_simulator.py:370-380 | the two correction draws are independent: the source can erase without retyping, or retype without erasing |
| Keyboard.Decide | src/modules/human_simulator.py:357-380 | a wrong key only after an error and only for a character on the layout; a correction only after a wrong key |
| Keyboard.DecidePossible | src/modules/human_simulator.py:357-380 | the decisions the draws make are possible ones |
| Keyboard.NeighbourOnLayout | src/modules/human_simulator.py:413-425 | a wrong key is drawn only for a character on the layout |
| Keyboard.Decided | src/modules/human_simulator.py:358-380 | one character's keystrokes read at least one draw |
| Keyboard.AfterChar | src/modules/human_simulator.py:358-393 | one character reads at least one draw, its thinking-pause draw included |
| Keyboard.SlipsFrom | src/modules/human_simulator.py:357-393 | one decision per character, each reading the stream where the previous ended |
| Keyboard.MissedErrorDraw | src/modules/human_simulator.py:362-377 | an error draw not below the error probability presses the character alone, reading one draw |
| Keyboard.CorrectedByDraws | src/modules/human_simulator.py:362-380 | an error on a key with a neighbour and both correction draws succeeding give the wrong key, backspace and the right key, reading six draws |
| Keyboard.NoErrorsFrom | src/modules/human_simulator.py:357-362 | when no draw is below the error probability no character is mistyped |
| Keyboard.HighDrawsTypePlainly | src/modules/human_simulator.py:357-380 | when no draw is below the error probability the text is typed exactly, with no backspace |
| Keyboard.SlipsFromPossible | src/modules/human_simulator.py:357-380 | every character's decision is a possible one |
| Keyboard.TypedStep | src/modules/human_simulator.py:357 | typing one more character appends its keystrokes |
| Keyboard.Plain | src/modules/human_simulator.py:376-377 | each character is pressed once, in order |
| Keyboard.ErrorFreeTyping | src/modules/human_simulator.py:357-380 | with no error anywhere typing presses exactly the text and never backspace |
| Simulator.HumanSimulator.constructor | src/modules/human_simulator.py:55-86 | a valid simulator with an explicit non-zero screen size overriding the display's, defaults for missing configurations, empty history and counter, and the last action at the current time |
| Simulator.JitterBoundNatural | src/modules/human_simulator.py:206-207 | the jitter bound `int(jitter_factor * 10)` is not negative exactly when the factor is above -0.1, the condition `Runnable` states |
| Simulator.HumanSimulator.Random | src/modules/human_simulator.py:242 | `random.random()` takes the next value of the stream and changes nothing else |
| Simulator.HumanSimulator.Normal | src/modules/human_simulator.py:112 | the normal sampler takes the next value of its stream and changes nothing else |
| Simulator.HumanSimulator.Sleep | src/modules/human_simulator.py:138 | `time.sleep(d)` advances the clock by `d` and changes nothing else |
| Simulator.HumanSimulator.PauseBetween | src/modules/human_simulator.py:328 | a `sleep(uniform(lo, hi))` advances the clock by between `lo` and `hi` |
| Simulator.HumanSimulator.Emit | src/modules/human_simulator.py:327-332 | a non-move event is appended to the trace and the pointer stays |
| Simulator.HumanSimulator.MoveTo | src/modules/human_simulator.py:274 | `moveTo` appends the move and places the pointer |
| Simulator.HumanSimulator.HumanPause | src/modules/human_simulator.py:117-141 | the clock advances by the clamped delay of the purpose's window, which is not negative, and the last action time is the clock afterwards |
| Simulator.HumanSimulator.Jitter | src/modules/human_simulator.py:191-210 | the jittered path is the path shifted point by point by the next `2n` draws, each offset `randint(-b, b)` with `b = int(jitter_factor * 10)` |
| Simulator.HumanSimulator.DrawOffsets | src/modules/human_simulator.py:164-165 | `n` random offset pairs, each within the bound on each axis |
| Simulator.HumanSimulator.Curve | src/modules/human_simulator.py:158-189 | the curve is the 50-point Bézier curve of control points offset by at most 50 pixels |
| Simulator.HumanSimulator.Follow | src/modules/human_simulator.py:269-280 | the pointer moves through the path in order and ends at its last point, with time passing but no other state changed |
| Simulator.HumanSimulator.MoveMouseHuman | src/modules/human_simulator.py:212-288 | within 2 pixels nothing at all happens; otherwise the pointer follows the path the draws plan (a curve exactly when the first draw is below 0.7, made from the following draws; else the eased path) and stops on its last point, and the target and its time are pushed onto the bounded history with one more action counted |
| Simulator.HumanSimulator.ReachStart | src/modules/human_simulator.py:212-288 | `move_mouse_human(x, y)` at the default speed as its callers see it: the path is the one its first draw plans (`MovedAlong`), the pointer stops on the path's last point, and the moves and the history entry are those of the path |
| Simulator.HumanSimulator.MovedAlong | src/modules/human_simulator.py:230-288 | defines the path of one `move_mouse_human` call from its first draw: none within 2 pixels, otherwise the planned path; MoveMouseHuman and ReachStart ensure it |
| Simulator.HumanSimulator.PlannedEnds | src/modules/human_simulator.py:241-262 | a planned path is never empty; a curved one has 50 points and leaves and arrives within the jitter bound of its ends; a straight one is the eased path, exact at both ends |
| Simulator.HumanSimulator.Traverse | src/modules/human_simulator.py:264-288 | the pointer follows the path to its last point, the target is pushed onto the bounded history and one more action is counted |
| Simulator.HumanSimulator.PlanPath | src/modules/human_simulator.py:241-262 | the path is curved exactly when the first draw is below 0.7: then the curve the following draws make, else the eased path from one draw |
| Simulator.HumanSimulator.CurvedPath | src/modules/human_simulator.py:243-249 | `randint(2, 4)` control points from the first draw, their offsets from the next draws, the 50-point curve through them, jittered by the draws after those |
| Simulator.HumanSimulator.ControlledCurve | src/modules/human_simulator.py:245 | the curve before its jitter: the number of control points from the first draw, their offsets from the next `2n` |
| Simulator.CurveDrawnFrom | src/modules/human_simulator.py:243-249 | the drawn curve moved by the jitter drawn after its offsets is the drawn curved path |
| Simulator.CurveDrawnEnds | src/modules/human_simulator.py:243-249 | a drawn curved path has 50 points and leaves and arrives within the jitter bound of its ends |
| Simulator.HumanSimulator.MoveTime | src/modules/human_simulator.py:264-269 | a given speed is used as the total time; otherwise one is drawn, and it is never negative |
| Simulator.HumanSimulator.ClickHuman | src/modules/human_simulator.py:292-337 | with both coordinates, a move to the point shifted by the offset, or for the zero offset by `randint(-3, 3)` of the first two draws; the path is the one the following draw plans, and the pointer stops on its last point; then the clicks; the move is logged |
| Simulator.HumanSimulator.Approach | src/modules/human_simulator.py:308-319 | with both coordinates, a move to the offset target (for the zero offset, `randint(-3, 3)` of the first two draws) along the path the next draw plans, logged in the history, leaving the pointer on its last point; otherwise nothing |
| Simulator.HumanSimulator.ApproachPoint | src/modules/human_simulator.py:310-319 | the move to the point shifted by the given offset, or by `randint(-3, 3)` of the first two draws for the zero offset, along the path the next draw plans, logged, leaving the pointer on its last point |
| Simulator.HumanSimulator.ClickOffset | src/modules/human_simulator.py:311-314 | the given offset, or for the zero offset `randint(-3, 3)` of the next two draws, x first; two draws for the zero offset and none otherwise |
| Simulator.HumanSimulator.Clicks | src/modules/human_simulator.py:321-335 | the single or double click between the two pauses, with the pointer and history untouched; two normal draws, one uniform draw for the double click's gap, and the last action time set to the end of the thinking pause |
| Simulator.HumanSimulator.Mistype | src/modules/human_simulator.py:358-373 | an error exactly when the first draw is below the error probability; the wrong key is the adjacent key of the next draw; the backspace follows exactly when the first correction draw is below the correction probability; the draws used are counted exactly |
| Simulator.HumanSimulator.WrongKey | src/modules/human_simulator.py:364-373 | after an error: the wrong key is the adjacent key of the next draw, and it is erased exactly when the first correction draw succeeds |
| Simulator.HumanSimulator.PressWrong | src/modules/human_simulator.py:367-373 | the wrong key is pressed, then erased between two pauses exactly when the correction draw is below the correction probability |
| Simulator.HumanSimulator.Retype | src/modules/human_simulator.py:375-380 | the right character is pressed unless an error with a wrong key was made and the second correction draw is not below the correction probability; that draw is taken only after a wrong key |
| Simulator.HumanSimulator.TypeChar | src/modules/human_simulator.py:357-393 | one character's keystrokes are those of the decision `Decide` reads off the draws, the draws end where `AfterChar` says, and the decision is a possible one |
| Simulator.HumanSimulator.TypeHuman | src/modules/human_simulator.py:339-393 | the trace gains the keystrokes of every character in order, each from the decision the draws make for it (`SlipsFrom`); with error probability 0 the text is typed exactly |
| Simulator.HumanSimulator.ScrollHuman | src/modules/human_simulator.py:427-456 | with both coordinates, a logged move along the path the first draw plans, and the wheel steps are sent with the pointer on its last point; then `max(clicks, 0)` wheel steps all in the direction |
| Simulator.HumanSimulator.DragHuman | src/modules/human_simulator.py:458-497 | a logged move to the start along the path the first draw plans, button down, the 50-point curve through three control points made of consecutive draws to the end, button up; the pointer ends at the end |
| Simulator.HumanSimulator.DragAlong | src/modules/human_simulator.py:481-491 | the control offsets are the three draw pairs after the duration draw (none when a duration is given), and the pointer follows the 50-point curve through them and ends at the end point |
| Simulator.HumanSimulator.PressKeyHuman | src/modules/human_simulator.py:499-520 | the key is pressed `presses` times and a missing interval is drawn at most once; a negative interval with two or more presses raises exactly then, after one press; exactly one uniform draw when there are two or more presses and no interval, none otherwise |
| Simulator.HumanSimulator.HotkeyHuman | src/modules/human_simulator.py:522-543 | held keys down in order, the last key pressed, held keys up in reverse, with one uniform draw per pause, `2 * |keys| - 1` in all; no keys raises before any event or draw |
| Simulator.HumanSimulator.HoldKeys | src/modules/human_simulator.py:530-532 | every held key goes down, in order, with one uniform draw per key |
| Simulator.HumanSimulator.ReleaseKeys | src/modules/human_simulator.py:539-541 | every held key comes up, in reverse order, with one uniform draw per key |
| Simulator.HumanSimulator.MicroMouseMovement | src/modules/human_simulator.py:572-577 | the target is the pointer shifted by `randint(-20, 20)` of the first two draws, the path is the one the next draw plans, the pointer stops on its last point, and the move is logged |
| Simulator.HumanSimulator.LookAround | src/modules/human_simulator.py:579-587 | raises exactly when the screen is under 200 pixels, before any move; otherwise the target is `randint(100, size - 100)` of the first two draws, the path is the one the next draw plans, the pointer stops on its last point, and the move is logged |
| Simulator.HumanSimulator.ScrollRandomly | src/modules/human_simulator.py:589-593 | one to three wheel steps, all in one direction |
| Simulator.HumanSimulator.SwitchTabs | src/modules/human_simulator.py:595-598 | ctrl down, tab pressed, ctrl up |
| Simulator.HumanSimulator.IdleBehavior | src/modules/human_simulator.py:545-570 | the duration is the first draw scaled to the two bounds; the trace, history and counter are those of the idle steps taken, each a step its micro-action allows; each step starts where the one before left the pointer, the pointer ends where the last left it, and the first step is chosen and aimed by the draws after the duration; a raise comes only from a look-around on a screen under 200 pixels and ends the idling; otherwise at least the duration passes |
| Simulator.HumanSimulator.IdleAct | src/modules/human_simulator.py:559-567 | one micro-action chosen by `choice` on the first draw, starting at the pointer (`StepDrawn`): a moving action aims where the next two draws say and moves along the path the draw after them plans; its events are appended, the pointer stops where the step left it, and a move pushes its entry and counts one action |
| Simulator.HumanSimulator.StepDrawn | src/modules/human_simulator.py:561-567 | defines how the draws make an idle step: the `choice` draw, the two target draws of a moving action and the move planned by the draw after them; IdleAct ensures it |
| Simulator.HumanSimulator.MicroMoveStep | src/modules/human_simulator.py:572-577 | `_micro_mouse_movement` as an idle step its action allows, with its target draws and its planned path |
| Simulator.HumanSimulator.LookAroundStep | src/modules/human_simulator.py:579-587 | `_look_around` as an idle step its action allows, with its target draws and its planned path on a large enough screen |
| Simulator.HumanSimulator.IdleRound | src/modules/human_simulator.py:559-570 | one pass of the loop extends the steps by one drawn step, keeps `IdledSince`, and pauses at least half a second unless the step raised |
| Simulator.HumanSimulator.IdledSince | src/modules/human_simulator.py:559-570 | defines the loop's invariant: the steps account for the trace, history, counter and pointer, each allowed and chained; IdleRound keeps it |
| Simulator.Chained | src/modules/human_simulator.py:559-567 | defines the chaining of idle steps: each starts where the one before left the pointer; IdleBehavior ensures it |
| Simulator.IdleEnd | src/modules/human_simulator.py:559-567 | defines where idle steps leave the pointer; IdleBehavior ensures the pointer ends there |
| Simulator.HumanSimulator.LoggedEntry | src/modules/human_simulator.py:283-288 | a logged move pushed an entry exactly when it moved, for its target |
| Simulator.IdleHistoryLength | src/modules/human_simulator.py:283-286 | idling moves at most once per step, and the history holds the old entries plus one per move, up to 100 |
| Simulator.HumanSimulator.GetBehaviorPattern | src/modules/human_simulator.py:600-627 | the empty report below two entries; otherwise the counter, the history length, the positive-duration steps and the last action time |
| Loader.Merged | src/config/loader.py:84-103 | the merge holds the keys of both dictionaries, and a key only in the base keeps its value |
| Loader.MergedEntry | src/config/loader.py:97-101 | an override key takes the override's value unless both sides hold dictionaries, which are merged into a dictionary |
| Loader.MergeConfigs | src/config/loader.py:84-103 | copy-then-assign over the override's keys computes the deep merge |
| Loader.MergeKey | src/config/loader.py:98-101 | one loop assignment stores the merged entry for its key |
| Loader.MergeEmptyOverride | src/config/loader.py:95-103 | merging with an empty override changes nothing |
| Loader.MergeEmptyBase | src/config/loader.py:95-103 | merging into an empty base gives the override |
| Loader.MergeIdempotent | src/config/loader.py:84-103 | merging a dictionary with itself gives it back |
| Loader.MergeOverridesLeaves | src/config/loader.py:97-101 | a non-dictionary value that the override holds at any nested path is what the merge holds there |
| Loader.MergeKeepsBase | src/config/loader.py:95-101 | a path whose first key the override lacks keeps the base's value |
| Loader.MergeNotAssociative | src/config/loader.py:97-101 | the merge is not associative, so the order of the files matters |
| Loader.LoadMultiple | src/config/loader.py:106-123 | the loop computes the left fold of the merge over the existing files, with a read failure raised |
| Loader.FoldFailsOnward | src/config/loader.py:118-121 | once one file fails, the whole load fails the same way |
| Loader.LaterFileWins | src/config/loader.py:106-123 | a non-dictionary value that a later file holds at a path is the loaded value there |
| Loader.NatToString | src/config/loader.py:174 | a decimal numeral is non-empty and all digits |
| Loader.ParseIntRoundTrip | src/config/loader.py:174 | `int()` reads back every numeral `str()` writes |
| Loader.ParseIntWhitespace | src/config/loader.py:174 | `int()` skips whitespace around the digits but raises on the separators U+001C to U+001F |
| Loader.ParseInt | src/config/loader.py:174 | defines `int(value)` on a string, `None` where it raises; ParseIntRoundTrip, ParseIntWhitespace and ParseIntegers state it |
| Loader.NumeralParses | src/config/loader.py:174 | the sign and digits of a numeral read back as its value |
| Loader.UnsignedStripped | src/config/loader.py:174 | a digit string (with `_` separators between digits) reads as its value |
| Loader.SignedStripped | src/config/loader.py:174 | a minus sign followed by digits reads as the negated value |
| Loader.NumeralNotWord | src/config/loader.py:164-167 | no numeral but `0` and `1` is a boolean word |
| Loader.ParseBooleans | src/config/loader.py:164-167 | any capitalisation of the boolean words, including `"1"` and `"0"`, parses to the boolean before any number is tried |
| Loader.ParseIntegers | src/config/loader.py:170-174 | a decimal integer other than 0 and 1 parses to that integer |
| Loader.NumeralPlain | src/config/loader.py:164-171 | a numeral has no upper-case letter and no decimal point |
| Loader.ParseLists | src/config/loader.py:179-180 | a comma-separated non-number is the list of its stripped parts, each parsed again |
| Loader.ParseStrings | src/config/loader.py:182-183 | a text no other reading accepts stays a string |
| Loader.ParseValue | src/config/loader.py:161-183 | defines `_parse_value`; ParseBooleans, ParseIntegers, ParseLists and ParseStrings state each of its readings |
| Loader.InsertEnv | src/config/loader.py:149-157 | a successful nested store makes the value readable at its path |
| Loader.InsertEnvFails | src/config/loader.py:151-157 | the store raises exactly when a proper prefix of the path reaches a non-dictionary |
| Loader.InsertEnvLeavesOthers | src/config/loader.py:149-157 | a successful nested store leaves every path that parts from its own path reading the same value as before |
| Loader.EnvPath | src/config/loader.py:145-148 | the key path of a prefixed variable is never empty |
| Loader.LoadEnvironmentVariables | src/config/loader.py:132-159 | the loop stores every prefixed variable in order at its nested path, failing as the fold fails |
| Loader.EnvFailsOnward | src/config/loader.py:142-157 | once one variable makes the load raise, the whole load raises the same way |
| Loader.Prefixed | src/config/loader.py:143 | the kept variables all carry the prefix |
| Loader.UnprefixedIgnored | src/config/loader.py:142-143 | variables without the prefix have no effect |
| Loader.EnvVariableStored | src/config/loader.py:143-157 | a prefixed `A_B_C` variable ends up at the lower-cased path `a`, `b`, `c`, holding its parsed value |
| Validator.RuleVerdict | src/config/validator.py:93-111 | an absent field passes; a wrongly typed one gives exactly one type error; a typed one gives a minimum error exactly when below the minimum and a maximum error exactly when above the maximum |
| Validator.RulesErrorsStep | src/config/validator.py:93 | validating one more rule appends that rule's errors |
| Validator.IntegerIsNotFloat | src/config/validator.py:100-103 | an integer where a float is expected is a type error |
| Validator.BooleanIsInteger | src/config/validator.py:100-107 | a boolean passes an integer rule and `False` falls below a minimum of 1 |
| Validator.Clock | src/config/validator.py:208-211 | the `HH:MM` text of a time has five characters |
| Validator.IsValidTime | src/config/validator.py:208-211 | defines `_is_valid_time`; ClockAccepted and ClockRecognised state both directions of it |
| Validator.ClockAccepted | src/config/validator.py:208-211 | every time of day written `HH:MM` is accepted, with or without one trailing newline |
| Validator.ClockRecognised | src/config/validator.py:208-211 | every accepted text is an hour 00-23 and minute 00-59 in two digits each, then at most a newline |
| Validator.ChainCrashOnward | src/config/validator.py:64-89 | once a check raises, no later check runs |
| Validator.CharErrors | src/config/validator.py:141-145 | a string of times is iterated character by character, one error each |
| Validator.DatabaseVerdict | src/config/validator.py:147-153 | unless the type is `sqlite`, one error each for a falsy host and a falsy name; a missing section raises; `sqlite` adds nothing |
| Validator.DatabaseCheck | src/config/validator.py:147-153 | defines the database branch; DatabaseVerdict states it |
| Validator.TimesCheck | src/config/validator.py:140-145 | defines the execution-time branch; CheckTimes computes it and DictTimesVerdict, StringTimesFlagged and CharErrors state it |
| Validator.EmailCheck | src/config/validator.py:128-132 | defines the e-mail branch; EmailWarnsOnly states that it only warns or raises |
| Validator.ProxyCheck | src/config/validator.py:134-138 | defines the proxy branch: one error for a truthy proxy the URL predicate refuses |
| Validator.PairCheck | src/config/validator.py:169-190 | defines one min/max pair check; PairOutcome and PairVerdict state it |
| Validator.Greater | src/config/validator.py:174 | defines Python's `>` on document values; GreaterAsymmetric and ListsCompareLexicographically state it |
| Validator.PairVerdict | src/config/validator.py:169-190 | a numeric pair is flagged exactly when both values are non-zero and the minimum exceeds the maximum; equal values pass |
| Validator.PairOutcome | src/config/validator.py:169-190 | any pair raises exactly when both values are truthy and `>` raises on them, and is flagged exactly when both are truthy and the minimum is greater |
| Validator.PyEqSymmetric | src/config/validator.py:174 | Python's `==` on document values is symmetric |
| Validator.FirstDifference | src/config/validator.py:174 | the first position where two lists differ: every earlier pair is equal and the pair there is not |
| Validator.FirstDifferenceSymmetric | src/config/validator.py:174 | two lists first differ at the same position whichever comes first |
| Validator.GreaterAsymmetric | src/config/validator.py:174 | when `a > b` holds, `b > a` is answered and false |
| Validator.ListsCompareLexicographically | src/config/validator.py:174 | an example illustrating Greater's lexicographic list order, beside GreaterAsymmetric and PairOutcome for all values: `[2] > [1]` and `[1, 2] > [1]` hold and `[1] > [1.0]` does not |
| Validator.ChainIgnoresWarnings | src/config/validator.py:64-89 | steps that agree on errors and exceptions agree on them in the chain |
| Validator.EmailWarnsOnly | src/config/validator.py:128-132 | the e-mail check only warns or raises, whatever the e-mail predicate |
| Validator.CustomIgnoresEmail | src/config/validator.py:126-153 | the e-mail predicate changes no error and no exception of the custom checks |
| Validator.PhasesAgree | src/config/validator.py:74-89 | runs whose middle phases agree on errors and exceptions agree on them overall and on validity |
| Validator.WarningsDoNotMatter | src/config/validator.py:64-132 | a different e-mail predicate changes at most the warnings, never the errors or the verdict |
| Validator.ValidIffNoErrors | src/config/validator.py:64-89 | a configuration is valid exactly when the rules, custom checks and logic checks add no error |
| Validator.Validation | src/config/validator.py:64-89 | defines everything `validate` appends, phase by phase; Validate computes it and ValidIffNoErrors and ValidationSteps state it |
| Validator.ReportValidity | src/config/validator.py:89 | the verdict is the absence of errors across the three phases |
| Validator.ValidationSteps | src/config/validator.py:74-89 | the phases compose in order, and an exception in the custom checks skips the logic checks |
| Validator.CheckTimes | src/config/validator.py:141-145 | the time check: a list item by item, a string character by character, a dictionary key by key, any other truthy value a TypeError |
| Validator.CheckTimeItems | src/config/validator.py:143-145 | the time loop computes the list check, stopping at the first item that is not a string |
| Validator.KeyNodes | src/config/validator.py:143 | iterating a dictionary yields its keys as strings |
| Validator.StringTimesFlagged | src/config/validator.py:143-145 | strings never raise, and exactly those that are not times are reported |
| Validator.DictTimesVerdict | src/config/validator.py:141-145 | a dictionary of times is checked by its keys: exactly the keys that are not times are reported, and nothing raises |
| Validator.DictOfTimesExample | src/config/validator.py:141-145 | an example of DictTimesVerdict, which covers every dictionary: `{"12:30": 1, "x": 2}` gives an error for `x` only |
| Validator.PrefixFound | src/config/validator.py:118-122 | every prefix of a found path is found |
| Validator.ConfigValidator.GetNestedValue | src/config/validator.py:113-124 | the walk finds the value of the dotted path exactly when every segment reaches a dictionary holding the next key, and then every prefix is found |
| Validator.TimeItemsCrashOnward | src/config/validator.py:143-145 | once a time item raises, the rest of the list is not seen |
| Validator.ConfigValidator.constructor | src/config/validator.py:20-62 | the validator holds the rule table and empty error and warning lists |
| Validator.ConfigValidator.ValidateRules | src/config/validator.py:91-111 | the errors of every rule of the table are appended, in table order |
| Validator.ConfigValidator.ValidateRule | src/config/validator.py:94-111 | one rule's errors are appended |
| Validator.ConfigValidator.RecordAll | src/config/validator.py:126-153 | the steps' errors and warnings are appended in order, up to the first exception |
| Validator.ConfigValidator.ValidateCustom | src/config/validator.py:126-153 | the custom checks' messages are appended and their exception is raised |
| Validator.ConfigValidator.ValidateLogic | src/config/validator.py:169-190 | the three pairs' errors are appended in order |
| Validator.ConfigValidator.Validate | src/config/validator.py:64-89 | both lists are reset, every check runs, and the result is validity as the absence of errors, or the exception raised |
| Manager.GetAfterSet | src/config/manager.py:164-190 | after `set` the value is found again under its path |
| Manager.SetPath | src/config/manager.py:176-190 | defines the dictionary after `set`; GetAfterSet, SetMakesDictionaries and SetLeavesOthers state it |
| Manager.SetMakesDictionaries | src/config/manager.py:181-187 | every proper prefix of the set path is a dictionary afterwards |
| Manager.SetLeavesOthers | src/config/manager.py:176-190 | a path that parts from the set path keeps its value |
| Manager.MaskExistingPath | src/config/manager.py:310-319 | when every segment exists, masking stores the hidden marker at that path and nothing else |
| Manager.MaskHidesLeaf | src/config/manager.py:310-319 | an existing sensitive path is masked without error and reads as hidden |
| Manager.Mask | src/config/manager.py:310-319 | defines the masking walk for one field; MaskExistingPath, MaskHidesLeaf and MaskSkipsMissingLevel state it |
| Manager.SafeDict | src/config/manager.py:300-321 | defines the masked copy; GetSafeDict computes it |
| Manager.MaskSkipsMissingLevel | src/config/manager.py:314-319 | a missing level is skipped without descending, so a shallower key of the same name is hidden |
| Manager.MaskAllFailsOnward | src/config/manager.py:310-319 | once masking one field raises, the whole call raises the same way |
| Manager.UpdateWithinFields | src/config/manager.py:334-341 | merging updates within the model's fields into an accepted dictionary is accepted |
| Manager.ModelAccepts | src/config/manager.py:193 | defines which dictionaries `AppConfig(**d)` accepts; SetAcceptance and UpdateWithinFields state it |
| Manager.SetAcceptance | src/config/manager.py:181-193 | a `set` on an accepted dictionary is accepted exactly when its first key is a model field |
| Manager.ConfigManager.constructor | src/config/manager.py:25-57 | the loaded dictionary becomes both the dictionary and the model |
| Manager.ConfigManager.DictConfig | src/config/manager.py:137-140 | the property returns the dictionary held |
| Manager.ConfigManager.Get | src/config/manager.py:142-162 | the value at the dotted path, or the default as soon as a step is missing or not a dictionary |
| Manager.ConfigManager.Set | src/config/manager.py:164-207 | the dictionary is always set at the path; the result is whether the model accepted it, and a refusal leaves the old model |
| Manager.ConfigManager.Update | src/config/manager.py:323-352 | the merge is adopted into both fields exactly when the model accepts it; otherwise both stay as they were |
| Manager.ConfigManager.GetSafeDict | src/config/manager.py:290-321 | a copy of the model's dictionary with each sensitive field masked in turn, unchanged when hiding is off |
| Manager.ConfigRegistry.constructor | src/config/manager.py:359-360 | no global manager before initialisation |
| Manager.ConfigRegistry.InitConfig | src/config/manager.py:362-385 | the first successful call creates the manager from what was loaded, and later calls return that same manager; a failed load leaves no manager |
| Manager.ConfigRegistry.GetConfigManager | src/config/manager.py:387-399 | the global manager, or the not-initialised error |
| Template.CompareEntry | src/config/template.py:110-126 | one template key reports exactly its own missing, extra and mismatched paths, without duplicates |
| Template.CompareNested | src/config/template.py:119-123 | the recursion reports the nested differences prefixed with the key |
| Template.AddExtras | src/config/template.py:128-132 | every configuration key the template lacks is added once as an extra field |
| Template.Compare | src/config/template.py:109-132 | one level's comparison reports exactly the missing, extra and mismatched paths, each once |
| Template.CompareWithTemplate | src/config/template.py:87-134 | the three lists hold the dotted texts of exactly the missing, extra and mismatched paths |
| Template.MissingSliceAt | src/config/template.py:113-123 | a template key absent from the configuration is missing itself; two dictionaries contribute their nested missing paths |
| Template.ExtraSliceAt | src/config/template.py:119-132 | extra paths below a template key come only from the recursion into two dictionaries |
| Template.MismatchSliceAt | src/config/template.py:119-126 | a key's mismatches are the nested ones when both are dictionaries, otherwise only its own |
| Template.KindsAt | src/config/template.py:119-126 | a dictionary or list expected but not found is the one mismatch; other values cause none |
| Template.HeadsInLevel | src/config/template.py:109-132 | every reported path starts with a key of its level |
| Template.IdenticalNoDifferences | src/config/template.py:109-132 | a configuration compared with itself differs nowhere |
| Template.MissingIsExtraSwapped | src/config/template.py:113-132 | the fields missing from a configuration are exactly the extra fields of the template against it |
| Template.EmptyConfigMissesTopLevel | src/config/template.py:113-115 | against an empty configuration exactly the top-level template keys are missing |
| Template.ScalarsNeverMismatch | src/config/template.py:119-126 | scalar template entries never cause a mismatch |
| Database.FiltersText | src/database/database.py:156-162 | a name or category condition is present, with that text, exactly when the criterion is a non-empty string |
| Database.Filters | src/database/database.py:153-170 | defines the conditions `search_products` adds; FiltersText, FiltersPrice and FiltersOrdered state them |
| Database.FiltersPrice | src/database/database.py:164-170 | a price condition is present exactly when its bound is not `None`, with that bound |
| Database.FiltersOrdered | src/database/database.py:156-170 | the conditions stand in source order, each kind at most once |
| Database.OnePlaceholder | src/database/database.py:157-169 | each condition text holds exactly one placeholder |
| Database.ClausePlaceholders | src/database/database.py:156-170 | the conditions hold one placeholder each |
| Database.QueryShape | src/database/database.py:153-172 | the query starts with the selection and holds one placeholder per condition plus the limit's |
| Database.Extend | src/database/database.py:156-170 | appending a condition's text and parameter keeps the query and the parameters in step |
| Database.AddCondition | src/database/database.py:156-170 | one conditional append adds the condition's text and parameter exactly when the criterion is present |
| Database.Conditions | src/database/database.py:156-170 | the four conditional appends give the conditions' texts and parameters in order |
| Database.Close | src/database/database.py:172-173 | the ordering and limit close the query, and the limit closes the parameters |
| Database.SearchQuery | src/database/database.py:146-173 | the query is the selection, the conditions in order, then the ordering and limit; the parameters are the conditions' and then the limit |
| Database.QueryMatchesParams | src/database/database.py:153-175 | the query holds exactly as many placeholders as there are parameters, and the limit is bound last |
| Database.FramedParams | src/database/database.py:153-175 | framed conditions with a one-placeholder tail match their parameters plus one |
| Database.NoCriteria | src/database/database.py:153-172 | with no criteria, or empty texts, the query only orders and limits |
| Database.ZeroBoundStillFilters | src/database/database.py:164-170 | a zero price bound still filters; only `None` leaves it out |
| Database.CleanPrice | src/database/database.py:111 | the cleaned price holds no `¥`, `$` or `,` |
| Database.InsertFromJson | src/database/database.py:94-121 | the insert calls are made in item order, and the printed success count is the number of calls that do not raise an exception other than `sqlite3.Error`, at most the number of items |
| Database.InsertItem | src/database/database.py:97-121 | one item adds its call, if any, and counts it unless it raises |
| Database.Returned | src/database/database.py:115-121 | the count of calls that return is at most the number of calls |
| Database.AllReturned | src/database/database.py:115-116 | when no call raises, every call is counted |
| Database.RaisingUncounted | src/database/database.py:115-121 | calls that raise are never counted |
| Database.InsertCallsAppend | src/database/database.py:97-117 | importing two batches in turn makes the same calls as importing them together |
| Database.InsertCalls | src/database/database.py:94-117 | defines the insert calls of a batch; InsertFromJson computes them and InsertCallsAppend and ItemCounted state them |
| Database.CallsAreValid | src/database/database.py:99-106 | every call carries a stripped, non-empty name and category |
| Database.PreparedValid | src/database/database.py:99-115 | a prepared item is a clean call |
| Database.Prepare | src/database/database.py:97-115 | defines what one item becomes; PreparedValid, ItemCounted and PriceFallback state it |
| Database.LabelsClean | src/database/database.py:99-106 | accepted labels are non-empty and stripped |
| Database.ItemCounted | src/database/database.py:97-117 | an item is inserted exactly when it is a dictionary whose name and category are strings that do not strip to nothing |
| Database.PriceFallback | src/database/database.py:108-113 | an unparsable price string becomes 0, and a non-string price is passed on unchanged |

## Left out

- pyautogui is not modelled beyond the events in the trace. This covers screen clamping of `moveTo`, the `FAILSAFE` corner abort, `PAUSE` and the real pointer reading of `position()`. The display size is a parameter of the constructor.
- Sleeping and reading the clock are modelled by the `now` field, which a sleep advances by exactly its argument. Scheduling overshoot and wall-clock drift are not modelled.
- Chance.RandInt and Chance.Choice: CPython's `randint` (through `randrange` and `_randbelow`) and `choice` (through `_randbelow`) draw `getrandbits` words with rejection sampling, so one call may use several words, and the value they give for a given state is a different one. The model takes one stream value per call and maps it by scaling; only `uniform`, `a + (b - a) * random()`, is CPython's own formula. So the draw positions the contracts name count calls, not Mersenne Twister words, and the model's values are not the ones CPython would give for the same seed.
- Random numbers come from two given streams. Their distributions are not modelled, so no statement is probabilistic: the 70% curve choice, the 5% thinking pause and every error probability become "possible" or "not possible". Each reachability lemma shows that every value of a range can be drawn.
- Simulator.HumanSimulator.constructor: requires `Runnable`, which asks for three things, and the model excludes the configurations that break them instead of modelling the raise. The construction itself never raises on any of them; they only fail on a later move.
  - An ordered, non-negative reaction window and non-negative speeds: otherwise the reaction pause or the sleep between points is negative, and `time.sleep` raises ValueError.
  - A jitter bound `int(jitter_factor * 10)` that is not negative: otherwise `random.randint(-b, b)` in `_add_jitter` has an empty range and raises ValueError, but only on a move whose first draw picks the curved path. A factor in (-0.1, 0) gives bound 0 and is accepted.
- Simulator.HumanSimulator.TypeHuman: requires ordered, non-negative delay bounds when the text has two or more characters. A negative sleep there raises in Python and is excluded, not modelled.
- Simulator.HumanSimulator.MoveMouseHuman: requires a non-negative `speed`. A negative speed makes the first sleep between points raise ValueError in Python, and the model excludes it instead of modelling the raise. The number of values a move draws is not stated, so callers that draw after a move cannot name the position of those draws.
- Simulator.HumanSimulator.DragHuman: requires a non-negative `duration`, and so does DragAlong, for the same reason as `speed` above. The control offsets are stated as three consecutive draw pairs of the stream (`DrawnOffsets`) whose position is not named, because it follows the draws of the move to the start.
- The unused `curve_factor` assignment in `move_mouse_human` has no effect on the result and is not modelled.
- Logging (`logger.debug`/`info`/`error`, `print`) is not modelled.
- Simulator.HumanSimulator.GetBehaviorPattern: `get_behavior_pattern` averages `sqrt(d2) / dt` over the steps as a float. The model reports the steps (squared distance and positive duration) and leaves the square root and the floating-point average out.
- Floating point is modelled as exact reals. Rounding, `inf` and `nan` are left out, and `int()` of a float is truncation toward zero.
- Loader.ParseValue and Database.PriceOf: `float(value)` is a parameter `parseFloat`, because Python's float grammar and rounding are not modelled. `int()` is modelled for decimal numerals with an optional sign, `_` separators and surrounding whitespace other than U+001C to U+001F, on which it raises; other Unicode digits are left out.
- Text.Lower and Text.LowerChar: lower-case only ASCII letters. Python's full Unicode case mapping is not modelled.
- Dictionaries are maps, so the insertion order of Python dicts is lost. The template comparison is therefore stated on sets of paths (each list free of duplicates), not on the order of the lists.
- Validator.TimesCheck: a dictionary of execution times is walked in ascending key order, not in its insertion order, so the order of its errors may differ from the source's. Which keys are reported, once each, is the same.
- Simulator.HumanSimulator.IdleBehavior: which draw chose each step's micro-action is stated for the first step only. Every later step follows the draws of moves and pauses whose number is not stated. IdleAct states the choice draw of the step it takes.
- Simulator.HumanSimulator.ScrollRandomly and Simulator.HumanSimulator.ScrollHuman: the direction, the number of steps and each step's amount are stated as ranges and not tied to their draws.
- Environment variables are a given sequence of name/value pairs. `os.environ` itself is not modelled.
- `ConfigLoader.load_file` and `save_file` (YAML/JSON reading and writing) are not modelled. A file of `load_multiple` is given as absent, parsed or unreadable.
- Validator.EmailCheck: `_is_valid_email` is a parameter `emailOk`. Its regular expression is not modelled.
- Validator.ProxyCheck: `_is_valid_url`, a call into `urlparse`, is a parameter `urlOk`.
- `_validate_required_fields` iterates over an empty list in the source, so it adds nothing and is modelled as such inside `Validation`.
- Manager.ModelAccepts: `AppConfig(**d)` is modelled as accepting exactly the dictionaries whose top-level keys are fields of the dataclass (`src/config/models.py:186-201`). Nested value types are not checked, as the dataclass does not check them.
- Manager.ConfigManager.GetSafeDict: in the source `self._config.dict()` (`src/config/manager.py:300`) raises AttributeError, because `AppConfig` defines `to_dict()` and no `dict()` (`src/config/models.py:203`). The model does not model that exception: it takes the dictionary the model was built from and proves the masking of lines 302-319 on it. The `AppConfig` defaults for fields the dictionary lacks are left out as well.
- Manager.ConfigManager.constructor: as written, construction never succeeds. `_load_config` calls `validator.validate_structure` when `strict_validation` is set (`src/config/manager.py:88`) and `validator.validate_schema` in every case (`src/config/manager.py:97`), and `ConfigValidator` defines neither, so both raise AttributeError. Before that, `src/config/manager.py:12` imports `ConfigAccessor`, which `src/config/models.py` does not define, so importing the module already raises ImportError. The model starts from the loaded dictionary and describes what the constructor evidently intends from there.
- Manager.ConfigRegistry.InitConfig: for the same reasons, `init_config` can only raise in the source. The model's successful branch describes the evident intent, starting from the loaded dictionary.
- `ConfigManager._create_config_from_template`, `save`, `reload` and `__str__` do file I/O or only log. They are not modelled: the constructor and `InitConfig` take the loaded dictionary or the load error as a parameter.
- `ConfigManager._load_config` reads the file and then validates: its validation always raises (see the constructor line above), and its file reading is not modelled.
- `ConfigManager.validate` is not modelled. After loading the template from disk (`src/config/manager.py:263`) it calls `validator.validate_structure` (`src/config/manager.py:265`) and `validator.validate_schema` (`src/config/manager.py:270`), which `ConfigValidator` does not define, so it always raises AttributeError and never reaches the `AppConfig` check (`src/config/manager.py:276`) or `compare_with_template` (`src/config/manager.py:285`).
- Manager.ConfigManager.DictConfig and Manager.ConfigManager.Get: the model has value semantics, so aliasing is not modelled. `dict_config` returns a shallow `copy()` (`src/config/manager.py:140`) whose nested dictionaries are shared with the manager's own, and `get` returns the manager's live nested dictionary (`src/config/manager.py:153-162`); a caller that mutates either result changes the manager's configuration in the source, and not in the model.
- `ConfigTemplate.load_template`, `_create_default_template` and `create_config_from_template` read or write files and are not modelled. The template is a parameter of `CompareWithTemplate`.
- Database: SQLite execution is not modelled. This covers table creation, the rows `search_products` returns, `insert_product`'s inserts and its returned id, and `get_categories`, `get_price_history`, `export_to_json`, `get_statistics`, `backup_database` and `import_json_file`. The model stops at the SQL text, the parameter list and the sequence of `insert_product` calls.
- The encryption helpers, the web application, the vision and browser-automation modules, and the scheduler are not part of this model.
