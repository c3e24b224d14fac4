/** `ConfigTemplate.compare_with_template` in `src/config/template.py`: a
    structural diff of a configuration against its template.  The recursive
    `_compare` appends to three shared lists; the dictionaries' iteration
    order is not modelled, so each list is specified by the set of key paths
    it reports, each reported once. */
module Template {
  import opened ConfigTree

  /** The two kinds of type mismatch: "should be a dictionary" and "should be
      a list". */
  datatype MismatchKind = ShouldBeDict | ShouldBeList

  type KeyPath = seq<string>

  /** `f"{path}.{key}" if path else key`. */
  function JoinKey(path: string, key: string): string {
    if path == "" then key else path + "." + key
  }

  /** The dotted text of a key path below `path`, built one key at a time as
      the recursion does. */
  function Dotted(path: string, keys: KeyPath): string
    decreases |keys|
  {
    if |keys| == 0 then path else Dotted(JoinKey(path, keys[0]), keys[1..])
  }

  function Elems<T(==)>(s: seq<T>): set<T> {
    set x | x in s
  }

  predicate NoDup<T(==)>(s: seq<T>) {
    forall i, j | 0 <= i < j < |s| :: s[i] != s[j]
  }

  /** Both sides are dictionaries under `k`: `_compare` descends there. */
  predicate Descends(c: Config, t: Config, k: string) {
    k in t && k in c && t[k].Dict? && c[k].Dict?
  }

  // ---------------------------------------------------------------------
  // What the three lists report

  /** Template keys absent from the configuration, at every level visited. */
  function MissingOf(c: Config, t: Config): set<KeyPath>
    decreases Dict(t)
  {
    (set k | k in t && k !in c :: [k]) +
    (set k, r | k in t && Descends(c, t, k) && r in MissingOf(c[k].entries, t[k].entries) :: [k] + r)
  }

  /** Configuration keys absent from the template, at every level visited. */
  function ExtraOf(c: Config, t: Config): set<KeyPath>
    decreases Dict(t)
  {
    (set k | k in c && k !in t :: [k]) +
    (set k, r | k in t && Descends(c, t, k) && r in ExtraOf(c[k].entries, t[k].entries) :: [k] + r)
  }

  /** The mismatch one template entry causes by itself. */
  predicate MismatchAt(c: Config, t: Config, k: string, kind: MismatchKind) {
    k in t && k in c &&
    match kind
    case ShouldBeDict => t[k].Dict? && !c[k].Dict?
    case ShouldBeList => t[k].List? && !c[k].List?
  }

  /** Type mismatches, at every level visited. */
  function MismatchOf(c: Config, t: Config): set<(KeyPath, MismatchKind)>
    decreases Dict(t)
  {
    (set k, kind: MismatchKind | k in t && MismatchAt(c, t, k, kind) :: ([k], kind)) +
    (set k, m | k in t && Descends(c, t, k) && m in MismatchOf(c[k].entries, t[k].entries) :: ([k] + m.0, m.1))
  }

  // ---------------------------------------------------------------------
  // The recursive comparison

  /** Prefix every key path with `k`. */
  function Under(k: string, rs: seq<KeyPath>): (r: seq<KeyPath>)
    ensures |r| == |rs| && forall i | 0 <= i < |rs| :: r[i] == [k] + rs[i]
  {
    seq(|rs|, i requires 0 <= i < |rs| => [k] + rs[i])
  }

  function UnderM(k: string, ms: seq<(KeyPath, MismatchKind)>): (r: seq<(KeyPath, MismatchKind)>)
    ensures |r| == |ms| && forall i | 0 <= i < |ms| :: r[i] == ([k] + ms[i].0, ms[i].1)
  {
    seq(|ms|, i requires 0 <= i < |ms| => ([k] + ms[i].0, ms[i].1))
  }

  /** The texts of key paths below `path`. */
  function Texts(path: string, rs: seq<KeyPath>): (r: seq<string>)
    ensures |r| == |rs| && forall i | 0 <= i < |rs| :: r[i] == Dotted(path, rs[i])
  {
    seq(|rs|, i requires 0 <= i < |rs| => Dotted(path, rs[i]))
  }

  function TextsM(path: string, ms: seq<(KeyPath, MismatchKind)>): (r: seq<(string, MismatchKind)>)
    ensures |r| == |ms| && forall i | 0 <= i < |ms| :: r[i] == (Dotted(path, ms[i].0), ms[i].1)
  {
    seq(|ms|, i requires 0 <= i < |ms| => (Dotted(path, ms[i].0), ms[i].1))
  }

  /** What `_compare` appends for one visited level. */
  datatype Diff = Diff(missing: seq<KeyPath>, extra: seq<KeyPath>, mismatches: seq<(KeyPath, MismatchKind)>)

  /** The three lists as the source reports them, with texts for paths. */
  datatype Differences = Differences(missingFields: seq<string>, extraFields: seq<string>,
                                     typeMismatches: seq<(string, MismatchKind)>)

  /** A diff reports exactly the specified paths, each once. */
  predicate Reports(d: Diff, c: Config, t: Config) {
    Elems(d.missing) == MissingOf(c, t) && NoDup(d.missing) &&
    Elems(d.extra) == ExtraOf(c, t) && NoDup(d.extra) &&
    Elems(d.mismatches) == MismatchOf(c, t) && NoDup(d.mismatches)
  }

  function Head(r: KeyPath): string { if |r| == 0 then "" else r[0] }

  /** The key paths of `s` that start with one of `keys`. */
  function Slice(s: set<KeyPath>, keys: set<string>): set<KeyPath> {
    set r | r in s && Head(r) in keys
  }

  function SliceM(s: set<(KeyPath, MismatchKind)>, keys: set<string>): set<(KeyPath, MismatchKind)> {
    set m | m in s && Head(m.0) in keys
  }

  lemma SliceStep(s: set<KeyPath>, done: set<string>, k: string)
    requires k !in done
    ensures Slice(s, done + {k}) == Slice(s, done) + Slice(s, {k})
    ensures Slice(s, done) !! Slice(s, {k})
  {
  }

  lemma SliceMStep(s: set<(KeyPath, MismatchKind)>, done: set<string>, k: string)
    requires k !in done
    ensures SliceM(s, done + {k}) == SliceM(s, done) + SliceM(s, {k})
    ensures SliceM(s, done) !! SliceM(s, {k})
  {
  }

  /** Appending a list of new, distinct elements keeps a list duplicate-free. */
  lemma AppendFresh<T>(a: seq<T>, b: seq<T>)
    requires NoDup(a) && NoDup(b) && Elems(a) !! Elems(b)
    ensures NoDup(a + b) && Elems(a + b) == Elems(a) + Elems(b)
  {
    forall i, j | 0 <= i < j < |a + b| ensures (a + b)[i] != (a + b)[j] {
      if j >= |a| && i < |a| {
        assert (a + b)[i] in Elems(a) && (a + b)[j] in Elems(b);
      }
    }
  }

  lemma UnderFacts(k: string, xs: seq<KeyPath>)
    requires NoDup(xs)
    ensures NoDup(Under(k, xs))
    ensures Elems(Under(k, xs)) == set r | r in Elems(xs) :: [k] + r
  {
    var u := Under(k, xs);
    forall i, j | 0 <= i < j < |u| ensures u[i] != u[j] {
      assert u[i][1..] == xs[i] && u[j][1..] == xs[j];
    }
    forall y | y in Elems(u) ensures y in set r | r in Elems(xs) :: [k] + r {
      var i :| 0 <= i < |u| && u[i] == y;
      assert xs[i] in Elems(xs);
    }
    forall y | y in set r | r in Elems(xs) :: [k] + r ensures y in Elems(u) {
      var r :| r in Elems(xs) && y == [k] + r;
      var i :| 0 <= i < |xs| && xs[i] == r;
      assert u[i] == y;
    }
  }

  lemma UnderMFacts(k: string, xs: seq<(KeyPath, MismatchKind)>)
    requires NoDup(xs)
    ensures NoDup(UnderM(k, xs))
    ensures Elems(UnderM(k, xs)) == set m | m in Elems(xs) :: ([k] + m.0, m.1)
  {
    var u := UnderM(k, xs);
    forall i, j | 0 <= i < j < |u| ensures u[i] != u[j] {
      assert u[i].0[1..] == xs[i].0 && u[j].0[1..] == xs[j].0;
    }
    forall y | y in Elems(u) ensures y in set m | m in Elems(xs) :: ([k] + m.0, m.1) {
      var i :| 0 <= i < |u| && u[i] == y;
      assert xs[i] in Elems(xs);
    }
    forall y | y in set m | m in Elems(xs) :: ([k] + m.0, m.1) ensures y in Elems(u) {
      var m :| m in Elems(xs) && y == ([k] + m.0, m.1);
      var i :| 0 <= i < |xs| && xs[i] == m;
      assert u[i] == y;
    }
  }

  /** What one template key contributes to the missing paths. */
  lemma MissingSliceAt(c: Config, t: Config, k: string)
    requires k in t
    ensures k !in c ==> Slice(MissingOf(c, t), {k}) == {[k]}
    ensures Descends(c, t, k) ==>
              Slice(MissingOf(c, t), {k}) == (set r | r in MissingOf(c[k].entries, t[k].entries) :: [k] + r)
    ensures k in c && !Descends(c, t, k) ==> Slice(MissingOf(c, t), {k}) == {}
  {
    if Descends(c, t, k) {
      var sub := MissingOf(c[k].entries, t[k].entries);
      forall r | r in Slice(MissingOf(c, t), {k}) ensures r in set r | r in sub :: [k] + r {
        assert r[1..] in sub && r == [k] + r[1..];
      }
    }
  }

  /** What one template key contributes to the extra paths. */
  lemma ExtraSliceAt(c: Config, t: Config, k: string)
    requires k in t
    ensures Descends(c, t, k) ==>
              Slice(ExtraOf(c, t), {k}) == (set r | r in ExtraOf(c[k].entries, t[k].entries) :: [k] + r)
    ensures !Descends(c, t, k) ==> Slice(ExtraOf(c, t), {k}) == {}
  {
    if Descends(c, t, k) {
      var sub := ExtraOf(c[k].entries, t[k].entries);
      forall r | r in Slice(ExtraOf(c, t), {k}) ensures r in set r | r in sub :: [k] + r {
        assert r[1..] in sub && r == [k] + r[1..];
      }
    }
  }

  /** What one template key contributes to the mismatches. */
  lemma MismatchSliceAt(c: Config, t: Config, k: string)
    requires k in t
    ensures Descends(c, t, k) ==>
              SliceM(MismatchOf(c, t), {k}) == (set m | m in MismatchOf(c[k].entries, t[k].entries) :: ([k] + m.0, m.1))
    ensures !Descends(c, t, k) ==>
              SliceM(MismatchOf(c, t), {k}) == (set kind: MismatchKind | MismatchAt(c, t, k, kind) :: ([k], kind))
  {
    if Descends(c, t, k) {
      MismatchSliceDescends(c, t, k);
    } else {
      MismatchSliceLeaf(c, t, k);
    }
  }

  lemma MismatchSliceDescends(c: Config, t: Config, k: string)
    requires Descends(c, t, k)
    ensures SliceM(MismatchOf(c, t), {k}) == (set m | m in MismatchOf(c[k].entries, t[k].entries) :: ([k] + m.0, m.1))
  {
    NestedMismatchesIn(c, t, k);
    NestedMismatchesOut(c, t, k);
  }

  lemma NestedMismatchesIn(c: Config, t: Config, k: string)
    requires Descends(c, t, k)
    ensures SliceM(MismatchOf(c, t), {k}) <= (set m | m in MismatchOf(c[k].entries, t[k].entries) :: ([k] + m.0, m.1))
  {
    var sub := MismatchOf(c[k].entries, t[k].entries);
    forall m | m in SliceM(MismatchOf(c, t), {k}) ensures m in set m | m in sub :: ([k] + m.0, m.1) {
      var m' := (m.0[1..], m.1);
      assert m' in sub && m == ([k] + m'.0, m'.1);
    }
  }

  lemma NestedMismatchesOut(c: Config, t: Config, k: string)
    requires Descends(c, t, k)
    ensures (set m | m in MismatchOf(c[k].entries, t[k].entries) :: ([k] + m.0, m.1)) <= SliceM(MismatchOf(c, t), {k})
  {
    var sub := MismatchOf(c[k].entries, t[k].entries);
    forall m' | m' in sub ensures ([k] + m'.0, m'.1) in SliceM(MismatchOf(c, t), {k}) {
      var m := ([k] + m'.0, m'.1);
      assert m in MismatchOf(c, t);
      assert Head(m.0) == k;
    }
  }

  lemma MismatchSliceLeaf(c: Config, t: Config, k: string)
    requires k in t && !Descends(c, t, k)
    ensures SliceM(MismatchOf(c, t), {k}) == (set kind: MismatchKind | MismatchAt(c, t, k, kind) :: ([k], kind))
  {
    var lhs := SliceM(MismatchOf(c, t), {k});
    var rhs := set kind: MismatchKind | MismatchAt(c, t, k, kind) :: ([k], kind);
    forall m | m in lhs ensures m in rhs {
      assert m.0 == [m.0[0]];
    }
    assert lhs == rhs;
  }

  /** The mismatch an entry causes by itself: a dictionary expected, a list
      expected, or none. */
  lemma KindsAt(c: Config, t: Config, k: string)
    requires k in t && k in c && !Descends(c, t, k)
    ensures t[k].Dict? ==>
              (set kind: MismatchKind | MismatchAt(c, t, k, kind) :: ([k], kind)) == {([k], ShouldBeDict)}
    ensures !t[k].Dict? && t[k].List? && !c[k].List? ==>
              (set kind: MismatchKind | MismatchAt(c, t, k, kind) :: ([k], kind)) == {([k], ShouldBeList)}
    ensures !t[k].Dict? && !(t[k].List? && !c[k].List?) ==>
              (set kind: MismatchKind | MismatchAt(c, t, k, kind) :: ([k], kind)) == {}
  {
    var kinds := set kind: MismatchKind | MismatchAt(c, t, k, kind) :: ([k], kind);
    if t[k].Dict? {
      assert MismatchAt(c, t, k, ShouldBeDict) && !MismatchAt(c, t, k, ShouldBeList);
      assert kinds == {([k], ShouldBeDict)};
    } else if t[k].List? && !c[k].List? {
      assert MismatchAt(c, t, k, ShouldBeList) && !MismatchAt(c, t, k, ShouldBeDict);
      assert kinds == {([k], ShouldBeList)};
    } else {
      assert !MismatchAt(c, t, k, ShouldBeList) && !MismatchAt(c, t, k, ShouldBeDict);
      assert kinds == {};
    }
  }

  /** Every reported path starts with a key of the level. */
  lemma HeadsInLevel(c: Config, t: Config)
    ensures Slice(MissingOf(c, t), t.Keys) == MissingOf(c, t)
    ensures Slice(ExtraOf(c, t), t.Keys + c.Keys) == ExtraOf(c, t)
    ensures SliceM(MismatchOf(c, t), t.Keys) == MismatchOf(c, t)
  {
  }

  /** One pass of `_compare`'s template loop, for key `k`: a missing-field
      entry, a mismatch, or the recursion into two dictionaries. */
  method CompareEntry(c: Config, t: Config, k: string) returns (d: Diff)
    requires k in t
    ensures Elems(d.missing) == Slice(MissingOf(c, t), {k}) && NoDup(d.missing)
    ensures Elems(d.extra) == Slice(ExtraOf(c, t), {k}) && NoDup(d.extra)
    ensures Elems(d.mismatches) == SliceM(MismatchOf(c, t), {k}) && NoDup(d.mismatches)
    decreases Dict(t), 1
  {
    MissingSliceAt(c, t, k);
    ExtraSliceAt(c, t, k);
    if Descends(c, t, k) {
      d := CompareNested(c, t, k);
    } else {
      MismatchSliceLeaf(c, t, k);
      if k !in c {
        d := Diff([[k]], [], []);
      } else {
        KindsAt(c, t, k);
        if t[k].Dict? {
          d := Diff([], [], [([k], ShouldBeDict)]);
        } else if t[k].List? && !c[k].List? {
          d := Diff([], [], [([k], ShouldBeList)]);
        } else {
          d := Diff([], [], []);
        }
      }
    }
  }

  /** The recursion into two dictionaries under `k`, each reported path
      prefixed with `k`. */
  method CompareNested(c: Config, t: Config, k: string) returns (d: Diff)
    requires Descends(c, t, k)
    ensures Elems(d.missing) == (set r | r in MissingOf(c[k].entries, t[k].entries) :: [k] + r) && NoDup(d.missing)
    ensures Elems(d.extra) == (set r | r in ExtraOf(c[k].entries, t[k].entries) :: [k] + r) && NoDup(d.extra)
    ensures Elems(d.mismatches) == SliceM(MismatchOf(c, t), {k}) && NoDup(d.mismatches)
    decreases Dict(t), 0
  {
    MismatchSliceDescends(c, t, k);
    var sub := Compare(c[k].entries, t[k].entries);
    UnderFacts(k, sub.missing);
    UnderFacts(k, sub.extra);
    UnderMFacts(k, sub.mismatches);
    d := Diff(Under(k, sub.missing), Under(k, sub.extra), UnderM(k, sub.mismatches));
  }

  /** `_compare`'s second loop: every configuration key the template lacks
      is appended as an extra field. */
  method AddExtras(c: Config, t: Config, extra0: seq<KeyPath>) returns (extra: seq<KeyPath>)
    requires Elems(extra0) == Slice(ExtraOf(c, t), t.Keys) && NoDup(extra0)
    ensures Elems(extra) == Slice(ExtraOf(c, t), t.Keys + c.Keys) && NoDup(extra)
  {
    extra := extra0;
    var rest := c.Keys;
    while rest != {}
      invariant rest <= c.Keys
      invariant Elems(extra) == Slice(ExtraOf(c, t), t.Keys + (c.Keys - rest)) && NoDup(extra)
      decreases rest
    {
      var k :| k in rest;
      ghost var done := t.Keys + (c.Keys - rest);
      if k !in t {
        SliceStep(ExtraOf(c, t), done, k);
        assert Slice(ExtraOf(c, t), {k}) == {[k]};
        AppendFresh(extra, [[k]]);
        extra := extra + [[k]];
      }
      rest := rest - {k};
      assert t.Keys + (c.Keys - rest) == done + {k};
    }
  }

  /** `_compare(config, template)` at one level: the template loop, then the
      configuration loop that reports extra keys.  Key paths are relative to
      this level. */
  method Compare(c: Config, t: Config) returns (d: Diff)
    ensures Reports(d, c, t)
    decreases Dict(t), 2
  {
    var missing: seq<KeyPath> := [];
    var extra: seq<KeyPath> := [];
    var mismatches: seq<(KeyPath, MismatchKind)> := [];
    var todo := t.Keys;
    while todo != {}
      invariant todo <= t.Keys
      invariant Elems(missing) == Slice(MissingOf(c, t), t.Keys - todo) && NoDup(missing)
      invariant Elems(extra) == Slice(ExtraOf(c, t), t.Keys - todo) && NoDup(extra)
      invariant Elems(mismatches) == SliceM(MismatchOf(c, t), t.Keys - todo) && NoDup(mismatches)
      decreases todo
    {
      var k :| k in todo;
      ghost var done := t.Keys - todo;
      var step := CompareEntry(c, t, k);
      SliceStep(MissingOf(c, t), done, k);
      SliceStep(ExtraOf(c, t), done, k);
      SliceMStep(MismatchOf(c, t), done, k);
      AppendFresh(missing, step.missing);
      AppendFresh(extra, step.extra);
      AppendFresh(mismatches, step.mismatches);
      missing := missing + step.missing;
      extra := extra + step.extra;
      mismatches := mismatches + step.mismatches;
      todo := todo - {k};
      assert t.Keys - todo == done + {k};
    }
    extra := AddExtras(c, t, extra);
    HeadsInLevel(c, t);
    d := Diff(missing, extra, mismatches);
  }

  /** `compare_with_template(config, template)`: the three lists with
      dotted texts, top-level paths without a leading dot. */
  method CompareWithTemplate(config: Config, template: Config) returns (r: Differences)
    ensures exists d: Diff :: Reports(d, config, template) &&
              r == Differences(Texts("", d.missing), Texts("", d.extra), TextsM("", d.mismatches))
  {
    var d := Compare(config, template);
    r := Differences(Texts("", d.missing), Texts("", d.extra), TextsM("", d.mismatches));
  }

  // ---------------------------------------------------------------------
  // Properties of the diff

  /** A configuration compared with itself differs nowhere. */
  lemma {:induction false} IdenticalNoDifferences(t: Config)
    ensures MissingOf(t, t) == {} && ExtraOf(t, t) == {} && MismatchOf(t, t) == {}
    decreases Dict(t)
  {
    forall k | k in t && Descends(t, t, k)
      ensures MissingOf(t[k].entries, t[k].entries) == {}
      ensures ExtraOf(t[k].entries, t[k].entries) == {}
      ensures MismatchOf(t[k].entries, t[k].entries) == {}
    {
      IdenticalNoDifferences(t[k].entries);
    }
    forall kind: MismatchKind, k | k in t ensures !MismatchAt(t, t, k, kind) {
    }
  }

  /** The missing fields of a configuration against a template are exactly
      the extra fields of the template against the configuration. */
  lemma {:induction false} MissingIsExtraSwapped(c: Config, t: Config)
    ensures MissingOf(c, t) == ExtraOf(t, c)
    decreases Dict(t)
  {
    forall k | k in t && Descends(c, t, k)
      ensures MissingOf(c[k].entries, t[k].entries) == ExtraOf(t[k].entries, c[k].entries)
    {
      MissingIsExtraSwapped(c[k].entries, t[k].entries);
    }
    forall r | r in ExtraOf(t, c) ensures r in MissingOf(c, t) {
      if |r| > 1 {
        var k := r[0];
        assert Descends(t, c, k) && r[1..] in ExtraOf(t[k].entries, c[k].entries) by {
          var k', r' :| k' in c && Descends(t, c, k') && r' in ExtraOf(t[k'].entries, c[k'].entries) && r == [k'] + r';
          assert k' == k && r' == r[1..];
        }
        assert r == [k] + r[1..];
      }
    }
  }

  /** Against an empty configuration, every top-level template key is
      missing and nothing else is reported. */
  lemma EmptyConfigMissesTopLevel(t: Config)
    ensures MissingOf(map[], t) == set k | k in t :: [k]
    ensures ExtraOf(map[], t) == {} && MismatchOf(map[], t) == {}
  {
  }

  /** Scalar template entries never cause a mismatch: only dictionaries and
      lists are type-checked. */
  lemma ScalarsNeverMismatch(c: Config, t: Config, k: string, kind: MismatchKind)
    requires k in t && t[k].Leaf?
    ensures ([k], kind) !in MismatchOf(c, t)
  {
  }
}
