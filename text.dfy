/** String operations of Python's `str` that the configuration and database
    layers rely on: `split` on one character, `strip`, `lower`, `startswith`
    and substring tests. */
module Text {

  /** Python's `str.split(sep)` for a one-character separator. */
  function Split(s: string, sep: char): (parts: seq<string>)
    ensures |parts| >= 1
    ensures forall i | 0 <= i < |parts| :: sep !in parts[i]
    decreases |s|
  {
    if |s| == 0 then [""]
    else
      var rest := Split(s[1..], sep);
      if s[0] == sep then [""] + rest
      else [[s[0]] + rest[0]] + rest[1..]
  }

  /** Python's `sep.join(parts)`. */
  function Join(parts: seq<string>, sep: char): string
    requires |parts| >= 1
    decreases |parts|
  {
    if |parts| == 1 then parts[0] else parts[0] + [sep] + Join(parts[1..], sep)
  }

  /** Splitting and joining back gives the original string. */
  lemma {:induction false} JoinSplit(s: string, sep: char)
    ensures Join(Split(s, sep), sep) == s
    decreases |s|
  {
    if |s| > 0 {
      JoinSplit(s[1..], sep);
      var rest := Split(s[1..], sep);
      if s[0] == sep {
        assert Split(s, sep) == [""] + rest;
        assert Join([""] + rest, sep) == "" + [sep] + Join(rest, sep);
      } else {
        if |rest| == 1 {
          assert Join(rest, sep) == rest[0];
        } else {
          assert Join(rest, sep) == rest[0] + [sep] + Join(rest[1..], sep);
          var glued := [[s[0]] + rest[0]] + rest[1..];
          assert glued[1..] == rest[1..];
        }
      }
    }
  }

  /** Splitting a joined list of separator-free words gives the words back. */
  lemma {:induction false} SplitJoin(parts: seq<string>, sep: char)
    requires |parts| >= 1
    requires forall i | 0 <= i < |parts| :: sep !in parts[i]
    ensures Split(Join(parts, sep), sep) == parts
    decreases |parts|, |parts[0]|
  {
    if |parts[0]| > 0 {
      var w := parts[0];
      var tail := [w[1..]] + parts[1..];
      assert forall i | 0 <= i < |tail| :: sep !in tail[i] by {
        forall i | 0 <= i < |tail| ensures sep !in tail[i] {
          if i == 0 {
            assert sep !in w;
            assert forall c | c in w[1..] :: c in w;
          } else {
            assert tail[i] == parts[i];
          }
        }
      }
      JoinHead(parts, sep);
      SplitJoin(tail, sep);
      assert Join(parts, sep)[1..] == Join(tail, sep);
      assert Join(parts, sep) == [w[0]] + Join(tail, sep);
      assert w[0] != sep by { assert w[0] in w; }
      assert [w[0]] + w[1..] == w;
      assert Split(Join(parts, sep), sep) == [[w[0]] + tail[0]] + tail[1..];
      assert tail[1..] == parts[1..];
    } else if |parts| > 1 {
      SplitJoin(parts[1..], sep);
      assert Join(parts, sep) == [sep] + Join(parts[1..], sep);
      assert ([sep] + Join(parts[1..], sep))[1..] == Join(parts[1..], sep);
      assert parts == [""] + parts[1..];
    }
  }

  /** The first word shifts one character from the join into the word list. */
  lemma JoinHead(parts: seq<string>, sep: char)
    requires |parts| >= 1 && |parts[0]| > 0
    ensures Join(parts, sep) == [parts[0][0]] + Join([parts[0][1..]] + parts[1..], sep)
  {
    var tail := [parts[0][1..]] + parts[1..];
    assert tail[1..] == parts[1..];
    if |parts| > 1 {
      assert Join(tail, sep) == parts[0][1..] + [sep] + Join(parts[1..], sep);
    }
  }

  /** Python's `str.isspace` on one character: the characters that `strip()`
      removes. */
  predicate IsSpace(c: char) {
    ('\t' <= c <= '\r') || ('\U{1c}' <= c <= '\U{1f}') || c == ' ' ||
    c == '\U{85}' || c == '\U{a0}' || c == '\U{1680}' ||
    ('\U{2000}' <= c <= '\U{200a}') || c == '\U{2028}' || c == '\U{2029}' ||
    c == '\U{202f}' || c == '\U{205f}' || c == '\U{3000}'
  }

  /** `str.lstrip()`: the leading whitespace removed. */
  function TrimLeft(s: string): (r: string)
    ensures |r| <= |s|
    decreases |s|
  {
    if |s| > 0 && IsSpace(s[0]) then TrimLeft(s[1..]) else s
  }

  /** `str.rstrip()`: the trailing whitespace removed. */
  function TrimRight(s: string): (r: string)
    ensures |r| <= |s|
    decreases |s|
  {
    if |s| > 0 && IsSpace(s[|s| - 1]) then TrimRight(s[..|s| - 1]) else s
  }

  /** `lstrip()` keeps a suffix that does not start with whitespace, and
      cuts off only whitespace. */
  lemma {:induction false} TrimLeftCuts(s: string)
    ensures var r := TrimLeft(s);
      r == s[|s| - |r|..] && (r == [] || !IsSpace(r[0])) &&
      forall i | 0 <= i < |s| - |r| :: IsSpace(s[i])
    decreases |s|
  {
    if |s| > 0 && IsSpace(s[0]) {
      TrimLeftCuts(s[1..]);
      assert s[1..][|s| - 1 - |TrimLeft(s)|..] == s[|s| - |TrimLeft(s)|..];
    }
  }

  /** `rstrip()` keeps a prefix that does not end with whitespace, and cuts
      off only whitespace. */
  lemma {:induction false} TrimRightCuts(s: string)
    ensures var r := TrimRight(s);
      r == s[..|r|] && (r == [] || !IsSpace(r[|r| - 1])) &&
      forall i | |r| <= i < |s| :: IsSpace(s[i])
    decreases |s|
  {
    if |s| > 0 && IsSpace(s[|s| - 1]) {
      TrimRightCuts(s[..|s| - 1]);
      assert s[..|s| - 1][..|TrimRight(s)|] == s[..|TrimRight(s)|];
    }
  }

  /** Python's `str.strip()`: the longest infix that neither starts nor ends
      with whitespace, everything cut off being whitespace. */
  function Strip(s: string): (r: string)
    ensures |r| <= |s|
    ensures r == [] || (!IsSpace(r[0]) && !IsSpace(r[|r| - 1]))
  {
    TrimLeftCuts(s);
    TrimRightCuts(TrimLeft(s));
    var r := TrimRight(TrimLeft(s));
    assert r != [] ==> r[0] == TrimLeft(s)[0];
    r
  }

  /** `r` stands at `i` in `s`, with only whitespace before and after it. */
  predicate WhitespaceAround(s: string, r: string, i: int) {
    OccursAt(s, r, i) &&
    (forall j | 0 <= j < i :: IsSpace(s[j])) &&
    (forall j | i + |r| <= j < |s| :: IsSpace(s[j]))
  }

  /** What `strip()` keeps is the infix of the text after its leading
      whitespace, and everything cut off on either side is whitespace. */
  lemma StripInfix(s: string)
    ensures WhitespaceAround(s, Strip(s), |s| - |TrimLeft(s)|)
  {
    TrimLeftCuts(s);
    TrimRightCuts(TrimLeft(s));
    TrimmedBothEnds(s, TrimLeft(s), TrimRight(TrimLeft(s)));
  }

  /** A whitespace-only cut from the front, then from the back, leaves an
      infix with whitespace around it. */
  lemma TrimmedBothEnds(s: string, l: string, r: string)
    requires |l| <= |s| && l == s[|s| - |l|..] && forall j | 0 <= j < |s| - |l| :: IsSpace(s[j])
    requires |r| <= |l| && r == l[..|r|] && forall j | |r| <= j < |l| :: IsSpace(l[j])
    ensures WhitespaceAround(s, r, |s| - |l|)
  {
    var i := |s| - |l|;
    assert s[i..i + |r|] == l[..|r|];
    forall j | i + |r| <= j < |s|
      ensures IsSpace(s[j])
    {
      assert s[j] == l[j - i];
    }
  }

  /** Python's `str.lower()` restricted to ASCII letters. */
  function LowerChar(c: char): (r: char)
    ensures 'A' <= c <= 'Z' ==> 'a' <= r <= 'z' && r as int == c as int + 32
    ensures !('A' <= c <= 'Z') ==> r == c
  {
    if 'A' <= c <= 'Z' then (c as int + 32) as char else c
  }

  function Lower(s: string): (r: string)
    ensures |r| == |s| && forall i | 0 <= i < |s| :: r[i] == LowerChar(s[i])
  {
    seq(|s|, i requires 0 <= i < |s| => LowerChar(s[i]))
  }

  /** A string whose two ends are not whitespace is its own `strip()`. */
  lemma StripUnchanged(s: string)
    requires s != [] && !IsSpace(s[0]) && !IsSpace(s[|s| - 1])
    ensures Strip(s) == s
  {
  }

  /** Every piece of a split is shorter than a string that holds the separator. */
  lemma {:induction false} SplitShorter(s: string, sep: char)
    requires sep in s
    ensures forall i | 0 <= i < |Split(s, sep)| :: |Split(s, sep)[i]| < |s|
    decreases |s|
  {
    var rest := Split(s[1..], sep);
    if s[0] != sep {
      assert sep in s[1..] by {
        var j :| 0 <= j < |s| && s[j] == sep;
        assert s[1..][j - 1] == sep;
      }
      SplitShorter(s[1..], sep);
    } else {
      SplitNoLonger(s[1..], sep);
    }
  }

  lemma {:induction false} SplitNoLonger(s: string, sep: char)
    ensures forall i | 0 <= i < |Split(s, sep)| :: |Split(s, sep)[i]| <= |s|
    decreases |s|
  {
    if |s| > 0 {
      SplitNoLonger(s[1..], sep);
    }
  }

  predicate StartsWith(s: string, prefix: string) {
    |prefix| <= |s| && s[..|prefix|] == prefix
  }

  /** `sub` stands in `s` from index `i` on. */
  predicate OccursAt(s: string, sub: string, i: int) {
    0 <= i <= |s| - |sub| && s[i..i + |sub|] == sub
  }

  /** Python's `sub in s` for two strings. */
  predicate Contains(s: string, sub: string) {
    exists i | 0 <= i <= |s| - |sub| :: OccursAt(s, sub, i)
  }

  /** Python's `s.replace(old, "")` for a one-character `old`. */
  function Remove(s: string, c: char): (r: string)
    ensures c !in r
    ensures forall d | d != c :: multiset(r)[d] == multiset(s)[d]
  {
    if |s| == 0 then ""
    else
      assert s == [s[0]] + s[1..];
      (if s[0] == c then "" else [s[0]]) + Remove(s[1..], c)
  }

  /** Removing works piece by piece, so the kept characters stay in their
      order. */
  lemma {:induction false} RemoveAppend(a: string, b: string, c: char)
    ensures Remove(a + b, c) == Remove(a, c) + Remove(b, c)
    decreases |a|
  {
    if |a| > 0 {
      assert (a + b)[0] == a[0] && (a + b)[1..] == a[1..] + b;
      RemoveAppend(a[1..], b, c);
    } else {
      assert a + b == b;
    }
  }

  predicate IsDigit(c: char) { '0' <= c <= '9' }

  /** The ASCII digit for `d`. */
  function DigitChar(d: nat): (c: char)
    requires d < 10
    ensures IsDigit(c) && DigitValue(c) == d
  {
    ('0' as int + d) as char
  }

  function DigitValue(c: char): int {
    c as int - '0' as int
  }

  /** Python's `a < b` on two strings: code-point lexicographic order. */
  predicate StrLess(a: string, b: string)
    decreases |a|
  {
    if |b| == 0 then false
    else if |a| == 0 then true
    else if a[0] != b[0] then a[0] < b[0]
    else StrLess(a[1..], b[1..])
  }

  /** The order is strict and total: of two different strings exactly one
      comes first. */
  lemma {:induction false} StrLessTotal(a: string, b: string)
    ensures !StrLess(a, a)
    ensures StrLess(a, b) ==> !StrLess(b, a)
    ensures a == b || StrLess(a, b) || StrLess(b, a)
    decreases |a|
  {
    if |a| > 0 {
      StrLessTotal(a[1..], a[1..]);
      if |b| > 0 {
        StrLessTotal(a[1..], b[1..]);
        if a[0] == b[0] && a[1..] == b[1..] {
          assert a == [a[0]] + a[1..] && b == [b[0]] + b[1..];
        }
      }
    }
  }

  lemma {:induction false} StrLessTransitive(a: string, b: string, c: string)
    requires StrLess(a, b) && StrLess(b, c)
    ensures StrLess(a, c)
    decreases |a|
  {
    if |a| > 0 && a[0] == b[0] && b[0] == c[0] {
      StrLessTransitive(a[1..], b[1..], c[1..]);
    }
  }

  /** `k` is the first of the strings `s` in that order. */
  predicate Least(k: string, s: set<string>) {
    k in s && forall j | j in s :: !StrLess(j, k)
  }

  /** Every non-empty set of strings has exactly one least element, and it
      comes before every other element. */
  lemma {:induction false} LeastExists(s: set<string>)
    requires s != {}
    ensures exists k :: Least(k, s)
    ensures forall k, j | Least(k, s) && j in s && j != k :: StrLess(k, j)
    decreases |s|
  {
    var x :| x in s;
    if s == {x} {
      StrLessTotal(x, x);
      assert Least(x, s);
    } else {
      LeastExists(s - {x});
      var y :| Least(y, s - {x});
      StrLessTotal(x, y);
      if StrLess(x, y) {
        forall j | j in s
          ensures !StrLess(j, x)
        {
          if j != x && StrLess(j, x) {
            StrLessTransitive(j, x, y);
          }
          StrLessTotal(x, x);
        }
        assert Least(x, s);
      } else {
        assert Least(y, s);
      }
    }
    forall k, j | Least(k, s) && j in s && j != k
      ensures StrLess(k, j)
    {
      StrLessTotal(k, j);
    }
  }

  /** The strings of a set in ascending order, each once. */
  function SortedKeys(s: set<string>): (r: seq<string>)
    ensures |r| == |s|
    ensures forall k :: k in r <==> k in s
    ensures forall i, j | 0 <= i < j < |r| :: StrLess(r[i], r[j])
    decreases |s|
  {
    if s == {} then []
    else
      LeastExists(s);
      var k :| Least(k, s);
      var rest := SortedKeys(s - {k});
      assert forall j | j in rest :: StrLess(k, j);
      [k] + rest
  }
}
