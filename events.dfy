/** The primitive input events `HumanSimulator` sends to the operating
    system, and the fixed event orders of its composite key and wheel
    actions. */
module Events {
  import opened Common
  import opened Chance
  import opened Geometry

  /** `MouseButton`. */
  datatype Button = Left | Right | Middle

  /** `ScrollDirection`. */
  datatype Direction = Up | Down

  /** One call into the input layer: `moveTo`, `click`, `press`, `keyDown`,
      `keyUp`, `scroll`, `mouseDown`, `mouseUp`. */
  datatype Event =
    | MoveTo(x: int, y: int)
    | Click(button: Button)
    | Press(key: string)
    | KeyDown(key: string)
    | KeyUp(key: string)
    | Scroll(amount: int)
    | MouseDown
    | MouseUp

  /** The pointer moves along a path, one `moveTo` per point. */
  function Moves(path: seq<Point>): (events: seq<Event>)
    ensures |events| == |path|
    ensures forall i | 0 <= i < |path| :: events[i] == MoveTo(path[i].0, path[i].1)
  {
    seq(|path|, i requires 0 <= i < |path| => MoveTo(path[i].0, path[i].1))
  }

  lemma MovesAppend(a: seq<Point>, b: seq<Point>)
    ensures Moves(a + b) == Moves(a) + Moves(b)
  {
  }

  /** The held keys going down, in order. */
  function Downs(keys: seq<string>): (events: seq<Event>)
    ensures |events| == |keys|
  {
    seq(|keys|, i requires 0 <= i < |keys| => KeyDown(keys[i]))
  }

  /** The held keys coming up, in reverse order. */
  function Ups(keys: seq<string>): (events: seq<Event>)
    ensures |events| == |keys|
  {
    seq(|keys|, i requires 0 <= i < |keys| => KeyUp(keys[|keys| - 1 - i]))
  }

  /** `hotkey_human(*keys)`: every key but the last held down in order, the
      last pressed, then the held keys released in reverse order. */
  function HotkeyEvents(keys: seq<string>): (events: seq<Event>)
    requires |keys| > 0
    ensures |events| == 2 * |keys| - 1
  {
    var n := |keys| - 1;
    Downs(keys[..n]) + [Press(keys[n])] + Ups(keys[..n])
  }

  /** The modifiers nest: modifier `i` goes down at step `i`, before the last
      key's press, and comes up at step `2n - 2 - i`, after it; so an earlier
      modifier is released later. */
  lemma HotkeyNesting(keys: seq<string>, i: nat)
    requires i < |keys| - 1
    ensures var events := HotkeyEvents(keys);
      var n := |keys|;
      events[i] == KeyDown(keys[i]) &&
      events[n - 1] == Press(keys[n - 1]) &&
      events[2 * n - 2 - i] == KeyUp(keys[i]) &&
      i < n - 1 < 2 * n - 2 - i
  {
  }

  /** A single key is just pressed. */
  lemma SingleKeyHotkey(key: string)
    ensures HotkeyEvents([key]) == [Press(key)]
  {
  }

  /** The wheel amount of one scroll step: 1 to 3 notches, negative when
      scrolling down. */
  function ScrollAmount(direction: Direction, u: Unit): (n: int)
    ensures direction == Down ==> -3 <= n <= -1
    ensures direction == Up ==> 1 <= n <= 3
  {
    if direction == Down then RandInt(-3, -1, u) else RandInt(1, 3, u)
  }

  /** Every amount of the direction's range can be drawn. */
  lemma ScrollAmountsReachable(direction: Direction, n: int)
    requires if direction == Down then -3 <= n <= -1 else 1 <= n <= 3
    ensures exists u: Unit :: ScrollAmount(direction, u) == n
  {
    if direction == Down {
      RandIntReaches(-3, -1, n);
      var u: Unit :| RandInt(-3, -1, u) == n;
      assert ScrollAmount(direction, u) == n;
    } else {
      RandIntReaches(1, 3, n);
      var u: Unit :| RandInt(1, 3, u) == n;
      assert ScrollAmount(direction, u) == n;
    }
  }

  /** A scroll step of the given direction. */
  predicate ScrollsToward(e: Event, direction: Direction) {
    e.Scroll? && (if direction == Down then -3 <= e.amount <= -1 else 1 <= e.amount <= 3)
  }

  /** A single or double click of one button. */
  function ClickEvents(button: Button, double: bool): (events: seq<Event>)
    ensures |events| == (if double then 2 else 1)
    ensures forall i | 0 <= i < |events| :: events[i] == Click(button)
  {
    if double then [Click(button), Click(button)] else [Click(button)]
  }

  /** `press_key_human(key, presses)`: the key pressed `presses` times; a
      count below one presses nothing. */
  function Presses(key: string, presses: int): (events: seq<Event>)
    ensures |events| == Max(presses, 0)
    ensures forall i | 0 <= i < |events| :: events[i] == Press(key)
  {
    seq(Max(presses, 0), _ => Press(key))
  }
}
