/** The keystroke error model of `type_human`: the simplified keyboard
    layout, the neighbouring key `_get_adjacent_key` picks, and the events
    one typed character produces for a given set of decisions. */
module Keyboard {
  import opened Common
  import opened Chance
  import opened Text
  import opened Events

  /** The four layout rows, searched in this order. */
  const Layout: seq<string> := ["`1234567890-=", "qwertyuiop[]\\", "asdfghjkl;'", "zxcvbnm,./"]

  /** `keys.index(c)`: the first position of `c`. */
  function IndexOf(row: string, c: char): (i: nat)
    requires c in row
    ensures i < |row| && row[i] == c && c !in row[..i]
  {
    if row[0] == c then 0
    else
      assert c in row[1..];
      var j := IndexOf(row[1..], c);
      assert row[..j + 1] == [row[0]] + row[1..][..j];
      j + 1
  }

  /** The row search of `_get_adjacent_key` for an offset of -1 or 1: the
      first row holding `c` whose neighbour at `offset` exists supplies the
      key. */
  function Neighbour(rows: seq<string>, c: char, offset: int): Option<char>
    decreases |rows|
  {
    if rows == [] then None
    else if c in rows[0] && 0 <= IndexOf(rows[0], c) + offset < |rows[0]| then
      Some(rows[0][IndexOf(rows[0], c) + offset])
    else Neighbour(rows[1..], c, offset)
  }

  /** `_get_adjacent_key(c)`, whose `random.choice([-1, 1])` is the draw `u`. */
  function AdjacentKey(c: char, u: Unit): Option<char> {
    Neighbour(Layout, LowerChar(c), Choice([-1, 1], u))
  }

  /** The character, lower-cased, is on the layout; only then is the
      offset drawn. */
  predicate OnLayout(c: char) {
    exists r | 0 <= r < |Layout| :: LowerChar(c) in Layout[r]
  }

  /** A found key sits right next to `c` in a row that holds `c`. */
  lemma {:induction false} NeighbourAdjacent(rows: seq<string>, c: char, offset: int)
    requires Neighbour(rows, c, offset).Some?
    ensures exists r, i | 0 <= r < |rows| && 0 <= i < |rows[r]| ::
      rows[r][i] == c && 0 <= i + offset < |rows[r]| && Neighbour(rows, c, offset) == Some(rows[r][i + offset])
    decreases |rows|
  {
    if c in rows[0] && 0 <= IndexOf(rows[0], c) + offset < |rows[0]| {
      var i := IndexOf(rows[0], c);
      assert rows[0][i] == c;
    } else {
      NeighbourAdjacent(rows[1..], c, offset);
      var r, i :| 0 <= r < |rows[1..]| && 0 <= i < |rows[1..][r]| &&
        rows[1..][r][i] == c && 0 <= i + offset < |rows[1..][r]| &&
        Neighbour(rows[1..], c, offset) == Some(rows[1..][r][i + offset]);
      assert rows[r + 1] == rows[1..][r];
    }
  }

  /** A character on no row has no neighbour. */
  lemma {:induction false} NeighbourAbsent(rows: seq<string>, c: char, offset: int)
    requires forall r | 0 <= r < |rows| :: c !in rows[r]
    ensures Neighbour(rows, c, offset) == None
    decreases |rows|
  {
    if rows != [] {
      assert c !in rows[0];
      NeighbourAbsent(rows[1..], c, offset);
    }
  }

  /** The first row holding `c` decides, when its neighbour exists and no
      earlier row holds `c`. */
  lemma {:induction false} NeighbourFirstRow(rows: seq<string>, c: char, offset: int, r: nat)
    requires r < |rows| && c in rows[r] && 0 <= IndexOf(rows[r], c) + offset < |rows[r]|
    requires forall q | 0 <= q < r :: c !in rows[q]
    ensures Neighbour(rows, c, offset) == Some(rows[r][IndexOf(rows[r], c) + offset])
    decreases r
  {
    if r > 0 {
      assert c !in rows[0];
      NeighbourFirstRow(rows[1..], c, offset, r - 1);
    }
  }

  /** With the offset drawn from `[-1, 1]`, a found key is one position to
      the left or right of `c` in a row holding `c`. */
  lemma ChosenNeighbour(rows: seq<string>, c: char, u: Unit)
    requires Neighbour(rows, c, Choice([-1, 1], u)).Some?
    ensures exists r, i, j | 0 <= r < |rows| && 0 <= i < |rows[r]| && 0 <= j < |rows[r]| ::
      rows[r][i] == c && (j == i - 1 || j == i + 1) && Neighbour(rows, c, Choice([-1, 1], u)) == Some(rows[r][j])
  {
    var offset := Choice([-1, 1], u);
    NeighbourAdjacent(rows, c, offset);
    var r, i :| 0 <= r < |rows| && 0 <= i < |rows[r]| &&
      rows[r][i] == c && 0 <= i + offset < |rows[r]| &&
      Neighbour(rows, c, offset) == Some(rows[r][i + offset]);
    assert offset == -1 || offset == 1;
    var j := i + offset;
    assert rows[r][i] == c && (j == i - 1 || j == i + 1) && Neighbour(rows, c, offset) == Some(rows[r][j]);
  }

  /** The adjacent key is a same-row neighbour, one position to the left or
      right, of the lower-cased character. */
  lemma AdjacentKeyIsNeighbour(c: char, u: Unit)
    requires AdjacentKey(c, u).Some?
    ensures exists r, i, j | 0 <= r < |Layout| && 0 <= i < |Layout[r]| && 0 <= j < |Layout[r]| ::
      Layout[r][i] == LowerChar(c) && (j == i - 1 || j == i + 1) && AdjacentKey(c, u) == Some(Layout[r][j])
  {
    ChosenNeighbour(Layout, LowerChar(c), u);
  }

  /** Off the layout there is no adjacent key. */
  lemma OffLayoutNoKey(c: char, u: Unit)
    requires !OnLayout(c)
    ensures AdjacentKey(c, u) == None
  {
    NeighbourAbsent(Layout, LowerChar(c), Choice([-1, 1], u));
  }

  /** Upper case looks up the same key as lower case. */
  lemma CaseInsensitive(c: char, u: Unit)
    requires 'A' <= c <= 'Z'
    ensures AdjacentKey(c, u) == AdjacentKey(LowerChar(c), u)
  {
  }

  /** A character on exactly one row whose neighbour at `offset` falls
      off that row has no neighbour: the search runs on past its row and
      finds no other. */
  lemma {:induction false} NeighbourFallsOff(rows: seq<string>, c: char, offset: int, r: nat)
    requires r < |rows| && c in rows[r] && !(0 <= IndexOf(rows[r], c) + offset < |rows[r]|)
    requires forall q | 0 <= q < |rows| && q != r :: c !in rows[q]
    ensures Neighbour(rows, c, offset) == None
    decreases |rows|
  {
    assert forall q | 0 <= q < |rows| - 1 :: rows[1..][q] == rows[q + 1];
    if r == 0 {
      NeighbourAbsent(rows[1..], c, offset);
    } else {
      assert c !in rows[0];
      NeighbourFallsOff(rows[1..], c, offset, r - 1);
    }
  }

  /** On every row of the layout, the left neighbour of the first key and
      the right neighbour of the last key fall off the row, and as no
      other row holds those keys, no key is returned. */
  lemma RowEndFallsOff(r: nat)
    requires r < |Layout|
    ensures Neighbour(Layout, Layout[r][0], -1) == None
    ensures Neighbour(Layout, Layout[r][|Layout[r]| - 1], 1) == None
  {
    var row := Layout[r];
    var first, last := row[0], row[|row| - 1];
    assert forall q | 0 <= q < |Layout| && q != r :: first !in Layout[q];
    assert IndexOf(row, first) == 0;
    NeighbourFallsOff(Layout, first, -1, r);
    LastKeyFallsOff(r);
  }

  /** The right neighbour of the last key of a row falls off the row. */
  lemma LastKeyFallsOff(r: nat)
    requires r < |Layout|
    ensures Neighbour(Layout, Layout[r][|Layout[r]| - 1], 1) == None
  {
    var row := Layout[r];
    var last := row[|row| - 1];
    assert forall q | 0 <= q < |Layout| && q != r :: last !in Layout[q];
    assert forall j | 0 <= j < |row| - 1 :: row[j] != last;
    NeighbourFallsOff(Layout, last, 1, r);
  }

  /** The decisions `type_human` makes for one character: whether an error
      is made, the adjacent key (if any), and the two independent
      correction draws, the first deciding on the backspace and the second
      on pressing the intended character. */
  datatype Slip = Slip(makeError: bool, errorKey: Option<char>, fixFirst: bool, fixSecond: bool)

  const NoSlip := Slip(false, None, false, false)

  const Backspace := "backspace"

  /** The wrong key, and the backspace erasing it, of an error. */
  function Mistyped(makeError: bool, errorKey: Option<char>, fixFirst: bool): seq<Event> {
    if makeError && errorKey.Some? then
      [Press([errorKey.value])] + (if fixFirst then [Press(Backspace)] else [])
    else []
  }

  /** The intended character: always pressed without an error or without
      a neighbour, otherwise only when the second correction draw says so. */
  function Retyped(c: char, makeError: bool, errorKey: Option<char>, fixSecond: bool): seq<Event> {
    if !makeError || errorKey.None? then [Press([c])]
    else if fixSecond then [Press([c])]
    else []
  }

  /** The presses for character `c` under the decisions `s`. */
  function Keystrokes(c: char, s: Slip): seq<Event> {
    Mistyped(s.makeError, s.errorKey, s.fixFirst) + Retyped(c, s.makeError, s.errorKey, s.fixSecond)
  }

  /** Without an error the character is pressed once. */
  lemma NoErrorPressesChar(c: char, s: Slip)
    requires !s.makeError
    ensures Keystrokes(c, s) == [Press([c])]
  {
  }

  /** An error on a character without a neighbour presses the character. */
  lemma NoNeighbourPressesChar(c: char, s: Slip)
    requires s.errorKey.None?
    ensures Keystrokes(c, s) == [Press([c])]
  {
  }

  /** An error corrected by both draws: wrong key, backspace, right key. */
  lemma CorrectedError(c: char, k: char, s: Slip)
    requires s.makeError && s.errorKey == Some(k) && s.fixFirst && s.fixSecond
    ensures Keystrokes(c, s) == [Press([k]), Press(Backspace), Press([c])]
  {
  }

  /** The two correction draws are independent: an erased wrong key with no
      retyped character, and a kept wrong key followed by the right one,
      both happen. */
  lemma CorrectionDrawsIndependent(c: char, k: char)
    ensures Keystrokes(c, Slip(true, Some(k), true, false)) == [Press([k]), Press(Backspace)]
    ensures Keystrokes(c, Slip(true, Some(k), false, true)) == [Press([k]), Press([c])]
    ensures Keystrokes(c, Slip(true, Some(k), false, false)) == [Press([k])]
  {
  }

  /** `errorKey` is a key an error on `c` can produce. */
  ghost predicate MayMistype(c: char, errorKey: Option<char>) {
    exists u: Unit :: AdjacentKey(c, u) == errorKey
  }

  /** The decisions for `c` are ones the draws can make: a wrong key only
      after an error and only a neighbour of `c`, an error only with a
      positive error probability, a correction only with a positive
      correction probability. */
  ghost predicate Possible(c: char, s: Slip, errorProbability: real, correctionProbability: real) {
    (s.errorKey.Some? ==> s.makeError && MayMistype(c, s.errorKey)) &&
    (s.makeError ==> errorProbability > 0.0) &&
    (s.fixFirst || s.fixSecond ==> correctionProbability > 0.0)
  }


  // ---------------------------------------------------------------------
  // The decisions the draws make

  /** The decisions for `c` when its first `random.random()` value is
      `u(d)`: the error draw; after an error on a layout character the
      offset draw of `_get_adjacent_key`; after a wrong key the first
      correction draw and, when it succeeds, the pauses around the
      backspace (one draw each); and after a wrong key the second correction
      draw. */
  function Decide(c: char, u: nat -> Unit, d: nat, errorProbability: real, correctionProbability: real): (s: Slip)
    ensures s.errorKey.Some? ==> s.makeError && OnLayout(c)
    ensures s.fixFirst || s.fixSecond ==> s.errorKey.Some?
  {
    var makeError := u(d) < errorProbability;
    var errorKey := if makeError then AdjacentKey(c, u(d + 1)) else None;
    NeighbourOnLayout(c, u(d + 1));
    var first := FirstCorrectionDraw(c, d, makeError);
    var fixFirst := errorKey.Some? && u(first) < correctionProbability;
    var fixSecond := errorKey.Some? && u(SecondCorrectionDraw(first, errorKey, fixFirst)) < correctionProbability;
    Slip(makeError, errorKey, fixFirst, fixSecond)
  }

  /** Where the first correction draw sits: after the error draw and, when
      the offset was drawn, after that. */
  function FirstCorrectionDraw(c: char, d: nat, makeError: bool): nat {
    if makeError && OnLayout(c) then d + 2 else d + 1
  }

  /** Where the second correction draw sits: after the first one and the
      two pauses of a correction. */
  function SecondCorrectionDraw(first: nat, errorKey: Option<char>, fixFirst: bool): nat {
    if errorKey.None? then first else if fixFirst then first + 3 else first + 1
  }

  /** Where the draws for the keystrokes of `c` end. */
  function Decided(c: char, u: nat -> Unit, d: nat, errorProbability: real, correctionProbability: real): (e: nat)
    ensures e > d
  {
    var s := Decide(c, u, d, errorProbability, correctionProbability);
    var second := SecondCorrectionDraw(FirstCorrectionDraw(c, d, s.makeError), s.errorKey, s.fixFirst);
    if s.errorKey.Some? then second + 1 else second
  }

  /** Where the draws for `c` end, the occasional thinking pause included:
      its draw and, when that draw is below 0.05, the pause's own draw. */
  function AfterChar(c: char, u: nat -> Unit, d: nat, errorProbability: real, correctionProbability: real): (e: nat)
    ensures e > d
  {
    var t := Decided(c, u, d, errorProbability, correctionProbability);
    if u(t) < 0.05 then t + 2 else t + 1
  }

  /** The decisions for each character of `text`, the first reading the
      stream from `d`. */
  function SlipsFrom(text: string, u: nat -> Unit, d: nat, errorProbability: real, correctionProbability: real): (slips: seq<Slip>)
    ensures |slips| == |text|
    decreases |text|
  {
    if text == [] then []
    else [Decide(text[0], u, d, errorProbability, correctionProbability)] +
         SlipsFrom(text[1..], u, AfterChar(text[0], u, d, errorProbability, correctionProbability), errorProbability, correctionProbability)
  }

  /** The decisions the draws make are possible ones. */
  lemma DecidePossible(c: char, u: nat -> Unit, d: nat, errorProbability: real, correctionProbability: real)
    ensures Possible(c, Decide(c, u, d, errorProbability, correctionProbability), errorProbability, correctionProbability)
  {
    var s := Decide(c, u, d, errorProbability, correctionProbability);
    if s.errorKey.Some? {
      assert AdjacentKey(c, u(d + 1)) == s.errorKey;
    }
  }

  /** A wrong key is drawn only for a character on the layout. */
  lemma NeighbourOnLayout(c: char, v: Unit)
    ensures AdjacentKey(c, v).Some? ==> OnLayout(c)
  {
    if !OnLayout(c) {
      OffLayoutNoKey(c, v);
    }
  }

  /** A failed error draw presses the character alone. */
  lemma MissedErrorDraw(c: char, u: nat -> Unit, d: nat, errorProbability: real, correctionProbability: real)
    requires u(d) >= errorProbability
    ensures Keystrokes(c, Decide(c, u, d, errorProbability, correctionProbability)) == [Press([c])]
    ensures Decided(c, u, d, errorProbability, correctionProbability) == d + 1
  {
  }

  /** An error on a character with a neighbour, with both correction draws
      succeeding: the wrong key, a backspace, then the right key, reading
      six draws. */
  lemma CorrectedByDraws(c: char, k: char, u: nat -> Unit, d: nat, errorProbability: real, correctionProbability: real)
    requires u(d) < errorProbability && AdjacentKey(c, u(d + 1)) == Some(k)
    requires u(d + 2) < correctionProbability && u(d + 5) < correctionProbability
    ensures Decide(c, u, d, errorProbability, correctionProbability) == Slip(true, Some(k), true, true)
    ensures Keystrokes(c, Decide(c, u, d, errorProbability, correctionProbability)) == [Press([k]), Press(Backspace), Press([c])]
    ensures Decided(c, u, d, errorProbability, correctionProbability) == d + 6
    ensures Typed([c], SlipsFrom([c], u, d, errorProbability, correctionProbability)) == [Press([k]), Press(Backspace), Press([c])]
  {
    NeighbourOnLayout(c, u(d + 1));
    var s := Decide(c, u, d, errorProbability, correctionProbability);
    assert SlipsFrom([c], u, d, errorProbability, correctionProbability) == [s];
    assert Typed([c], [s]) == Typed([], []) + Keystrokes(c, s);
  }

  /** The presses of a whole text, character by character. */
  function Typed(text: string, slips: seq<Slip>): seq<Event>
    requires |slips| == |text|
    decreases |text|
  {
    if text == [] then [] else Typed(text[..|text| - 1], slips[..|text| - 1]) + Keystrokes(text[|text| - 1], slips[|text| - 1])
  }

  lemma TypedStep(text: string, slips: seq<Slip>, slip: Slip)
    requires |slips| < |text|
    ensures var i := |slips|;
      Typed(text[..i + 1], slips + [slip]) == Typed(text[..i], slips) + Keystrokes(text[i], slip)
  {
    var i := |slips|;
    assert text[..i + 1][..i] == text[..i];
    assert (slips + [slip])[..i] == slips;
  }

  /** Each character of the text pressed once, in order. */
  function Plain(text: string): (events: seq<Event>)
    ensures |events| == |text|
    ensures forall i | 0 <= i < |text| :: events[i] == Press([text[i]])
  {
    seq(|text|, i requires 0 <= i < |text| => Press([text[i]]))
  }

  /** With no error anywhere, typing presses exactly the text's characters
      in order, with no backspace. */
  lemma {:induction false} ErrorFreeTyping(text: string, slips: seq<Slip>)
    requires |slips| == |text|
    requires forall i | 0 <= i < |slips| :: !slips[i].makeError
    ensures Typed(text, slips) == Plain(text)
    ensures Press(Backspace) !in Typed(text, slips)
    decreases |text|
  {
    if text != [] {
      var n := |text| - 1;
      ErrorFreeTyping(text[..n], slips[..n]);
      NoErrorPressesChar(text[n], slips[n]);
      assert Plain(text) == Plain(text[..n]) + [Press([text[n]])];
    }
    assert forall i | 0 <= i < |text| :: Plain(text)[i] != Press(Backspace) by {
      forall i | 0 <= i < |text| ensures Plain(text)[i] != Press(Backspace) {
        assert |[text[i]]| != |Backspace|;
      }
    }
  }

  /** When no draw from `d` on is below the error probability, the text
      is typed exactly, character by character, with no backspace. */
  lemma HighDrawsTypePlainly(text: string, u: nat -> Unit, d: nat, errorProbability: real, correctionProbability: real)
    requires forall k: nat | k >= d :: u(k) >= errorProbability
    ensures Typed(text, SlipsFrom(text, u, d, errorProbability, correctionProbability)) == Plain(text)
    ensures Press(Backspace) !in Typed(text, SlipsFrom(text, u, d, errorProbability, correctionProbability))
  {
    NoErrorsFrom(text, u, d, errorProbability, correctionProbability);
    ErrorFreeTyping(text, SlipsFrom(text, u, d, errorProbability, correctionProbability));
  }

  lemma {:induction false} NoErrorsFrom(text: string, u: nat -> Unit, d: nat, errorProbability: real, correctionProbability: real)
    requires forall k: nat | k >= d :: u(k) >= errorProbability
    ensures forall i | 0 <= i < |text| :: !SlipsFrom(text, u, d, errorProbability, correctionProbability)[i].makeError
    decreases |text|
  {
    if text != [] {
      var e := AfterChar(text[0], u, d, errorProbability, correctionProbability);
      NoErrorsFrom(text[1..], u, e, errorProbability, correctionProbability);
      var slips := SlipsFrom(text, u, d, errorProbability, correctionProbability);
      forall i | 0 <= i < |text|
        ensures !slips[i].makeError
      {
        if i > 0 {
          assert slips[i] == SlipsFrom(text[1..], u, e, errorProbability, correctionProbability)[i - 1];
        }
      }
    }
  }

  /** The decisions the draws make for a text are possible ones, character
      by character. */
  lemma {:induction false} SlipsFromPossible(text: string, u: nat -> Unit, d: nat, errorProbability: real, correctionProbability: real)
    ensures var slips := SlipsFrom(text, u, d, errorProbability, correctionProbability);
      forall i | 0 <= i < |text| :: Possible(text[i], slips[i], errorProbability, correctionProbability)
    decreases |text|
  {
    if text != [] {
      var e := AfterChar(text[0], u, d, errorProbability, correctionProbability);
      SlipsFromPossible(text[1..], u, e, errorProbability, correctionProbability);
      DecidePossible(text[0], u, d, errorProbability, correctionProbability);
      var slips := SlipsFrom(text, u, d, errorProbability, correctionProbability);
      forall i | 0 <= i < |text|
        ensures Possible(text[i], slips[i], errorProbability, correctionProbability)
      {
        if i > 0 {
          assert slips[i] == SlipsFrom(text[1..], u, e, errorProbability, correctionProbability)[i - 1];
          assert text[i] == text[1..][i - 1];
        }
      }
    }
  }
}
