/** The pure part of `src/config/loader.py`: the deep merge of two
    configuration dictionaries, the merge of several loaded files, and the
    environment-variable loader with its value parser. */
module Loader {
  import opened Common
  import opened Text
  import opened ConfigTree

  // ---------------------------------------------------------------------
  // ConfigLoader.merge_configs

  /** The deep merge: keys of `over` win, except that two dictionaries under
      the same key are merged recursively; keys only in `base` keep their
      value. */
  function Merged(base: Config, over: Config): (r: Config)
    ensures r.Keys == base.Keys + over.Keys
    ensures forall k | k in base && k !in over :: r[k] == base[k]
    decreases Dict(over)
  {
    map k | k in base.Keys + over.Keys ::
      if k in over then MergedEntry(base, over, k) else base[k]
  }

  /** What the merge stores under a key of `over`. */
  function MergedEntry(base: Config, over: Config, k: string): (n: Node)
    requires k in over
    ensures !(k in base && base[k].Dict? && over[k].Dict?) ==> n == over[k]
    ensures k in base && base[k].Dict? && over[k].Dict? ==> n.Dict?
    decreases Dict(over), 0
  {
    if k in base && base[k].Dict? && over[k].Dict? then
      Dict(Merged(base[k].entries, over[k].entries))
    else over[k]
  }

  /** `merge_configs` as the source runs it: copy `base`, then assign every
      key of `override` into the copy in turn.  The inputs are values, so
      `base` is left as it was. */
  method MergeConfigs(base: Config, over: Config) returns (result: Config)
    ensures result == Merged(base, over)
    decreases Dict(over), 1
  {
    result := base;
    var todo := over.Keys;
    while todo != {}
      invariant todo <= over.Keys
      invariant result.Keys == base.Keys + (over.Keys - todo)
      invariant forall k | k in result && k in over && k !in todo :: result[k] == MergedEntry(base, over, k)
      invariant forall k | k in result && (k !in over || k in todo) :: result[k] == base[k]
      decreases todo
    {
      var k :| k in todo;
      var entry := MergeKey(result, over, k);
      assert MergedEntry(result, over, k) == MergedEntry(base, over, k);
      result := result[k := entry];
      todo := todo - {k};
    }
  }

  /** One assignment of the merge loop: the two dictionaries under `k`
      merged recursively, otherwise the value of `override`. */
  method MergeKey(result: Config, over: Config, k: string) returns (entry: Node)
    requires k in over
    ensures entry == MergedEntry(result, over, k)
    decreases Dict(over), 0
  {
    var value := over[k];
    if k in result && result[k].Dict? && value.Dict? {
      var sub := MergeConfigs(result[k].entries, value.entries);
      entry := Dict(sub);
    } else {
      entry := value;
    }
  }

  /** Merging with an empty override changes nothing. */
  lemma MergeEmptyOverride(d: Config)
    ensures Merged(d, map[]) == d
  {
  }

  /** Merging into an empty base gives the override. */
  lemma MergeEmptyBase(d: Config)
    ensures Merged(map[], d) == d
  {
    forall k | k in d ensures Merged(map[], d)[k] == d[k] {
    }
  }

  /** Merging a dictionary with itself gives it back. */
  lemma {:induction false} MergeIdempotent(d: Config)
    ensures Merged(d, d) == d
    decreases Dict(d)
  {
    forall k | k in d ensures Merged(d, d)[k] == d[k] {
      if d[k].Dict? {
        MergeIdempotent(d[k].entries);
      }
    }
  }

  /** Deep override: every non-dictionary value that `over` holds at some
      path is what the merge holds at that path. */
  lemma {:induction false} MergeOverridesLeaves(base: Config, over: Config, p: seq<string>)
    requires LookupPath(Dict(over), p).Some?
    requires !LookupPath(Dict(over), p).value.Dict?
    ensures LookupPath(Dict(Merged(base, over)), p) == LookupPath(Dict(over), p)
    decreases |p|
  {
    var k := p[0];
    var m := Merged(base, over);
    if k in base && base[k].Dict? && over[k].Dict? {
      MergeOverridesLeaves(base[k].entries, over[k].entries, p[1..]);
    }
  }

  /** Deep keep: a path of `base` that `over` does not touch at any level keeps
      its value. */
  lemma {:induction false} MergeKeepsBase(base: Config, over: Config, p: seq<string>)
    requires LookupPath(Dict(base), p).Some?
    requires |p| > 0 && p[0] !in over
    ensures LookupPath(Dict(Merged(base, over)), p) == LookupPath(Dict(base), p)
  {
  }

  /** The merge is not associative, so the order of a fold over files
      matters: a non-dictionary in the middle hides the first dictionary from
      the third one in one bracketing and not in the other. */
  lemma MergeNotAssociative()
    ensures var a := map["k" := Dict(map["x" := Leaf(Int(1))])];
            var b := map["k" := Leaf(Int(5))];
            var c := map["k" := Dict(map["y" := Leaf(Int(2))])];
            Merged(Merged(a, b), c) != Merged(a, Merged(b, c))
  {
    var a := map["k" := Dict(map["x" := Leaf(Int(1))])];
    var b := map["k" := Leaf(Int(5))];
    var c := map["k" := Dict(map["y" := Leaf(Int(2))])];
    assert Merged(a, b)["k"] == Leaf(Int(5));
    assert Merged(Merged(a, b), c)["k"] == Dict(map["y" := Leaf(Int(2))]);
    assert Merged(b, c)["k"] == Dict(map["y" := Leaf(Int(2))]);
    var inner := Merged(map["x" := Leaf(Int(1))], map["y" := Leaf(Int(2))]);
    assert "x" in inner;
    assert Merged(a, Merged(b, c))["k"] == Dict(inner);
  }

  // ---------------------------------------------------------------------
  // ConfigLoader.load_multiple

  /** A configuration file as `load_multiple` meets it: missing (skipped by
      the `os.path.exists` test), parsed into a document, or one that
      `load_file` cannot read (unknown suffix, syntax error). */
  datatype ConfigFile = Absent | Parsed(doc: Node) | Unreadable

  datatype LoadError = LoadFailed | NotADictionary

  /** A left fold of `merge_configs` over the files that exist. */
  function FoldFiles(files: seq<ConfigFile>): Result<Config, LoadError>
    decreases |files|
  {
    if |files| == 0 then Ok(map[])
    else
      match FoldFiles(files[..|files| - 1])
      case Err(e) => Err(e)
      case Ok(acc) =>
        match files[|files| - 1]
        case Absent => Ok(acc)
        case Unreadable => Err(LoadFailed)
        case Parsed(doc) =>
          if doc.Dict? then Ok(Merged(acc, doc.entries)) else Err(NotADictionary)
  }

  method LoadMultiple(files: seq<ConfigFile>) returns (r: Result<Config, LoadError>)
    ensures r == FoldFiles(files)
  {
    var config: Config := map[];
    var i := 0;
    while i < |files|
      invariant 0 <= i <= |files|
      invariant FoldFiles(files[..i]) == Ok(config)
    {
      assert files[..i + 1][..i] == files[..i];
      match files[i] {
        case Absent =>
        case Unreadable =>
          FoldFailsOnward(files, i + 1);
          return Err(LoadFailed);
        case Parsed(doc) =>
          if !doc.Dict? {
            FoldFailsOnward(files, i + 1);
            return Err(NotADictionary);
          }
          config := MergeConfigs(config, doc.entries);
      }
      i := i + 1;
    }
    assert files[..|files|] == files;
    r := Ok(config);
  }

  /** Once a prefix of the files fails, the whole fold fails the same way. */
  lemma {:induction false} FoldFailsOnward(files: seq<ConfigFile>, i: nat)
    requires i <= |files| && FoldFiles(files[..i]).Err?
    ensures FoldFiles(files) == FoldFiles(files[..i])
    decreases |files| - i
  {
    if i < |files| {
      assert files[..i + 1][..i] == files[..i];
      FoldFailsOnward(files, i + 1);
    } else {
      assert files[..i] == files;
    }
  }

  /** Later files override earlier ones: a non-dictionary value that the last
      existing file holds at a path is the merged value at that path. */
  lemma LaterFileWins(files: seq<ConfigFile>, doc: Config, p: seq<string>)
    requires FoldFiles(files).Ok?
    requires LookupPath(Dict(doc), p).Some? && !LookupPath(Dict(doc), p).value.Dict?
    ensures FoldFiles(files + [Parsed(Dict(doc))]).Ok?
    ensures LookupPath(Dict(FoldFiles(files + [Parsed(Dict(doc))]).value), p) == LookupPath(Dict(doc), p)
  {
    var all := files + [Parsed(Dict(doc))];
    assert all[..|all| - 1] == files;
    MergeOverridesLeaves(FoldFiles(files).value, doc, p);
  }

  // ---------------------------------------------------------------------
  // EnvironmentLoader._parse_value

  /** Digits with single underscores between them, as `int()` accepts. */
  predicate DigitGroups(s: string) {
    |s| > 0 && IsDigit(s[0]) && IsDigit(s[|s| - 1]) &&
    forall i | 0 < i < |s| - 1 :: IsDigit(s[i]) || (s[i] == '_' && IsDigit(s[i - 1]) && IsDigit(s[i + 1]))
  }

  /** The value of a string of digits, underscores skipped. */
  function DigitsValue(s: string): nat
    decreases |s|
  {
    if |s| == 0 then 0
    else if s[|s| - 1] == '_' then DigitsValue(s[..|s| - 1])
    else DigitsValue(s[..|s| - 1]) * 10 + DigitValue(s[|s| - 1]) % 10
  }

  /** The four information separators U+001C to U+001F: `str.isspace`
      counts them as whitespace, but `int()` skips only the other
      whitespace characters, so they make it raise wherever they stand. */
  predicate HasSeparator(s: string) {
    exists i | 0 <= i < |s| :: '\U{1c}' <= s[i] <= '\U{1f}'
  }

  /** Python's `int(value)` on a string: surrounding whitespace, an optional
      sign, then decimal digit groups; `None` where `int()` raises ValueError. */
  function ParseInt(value: string): Option<int> {
    if HasSeparator(value) then None else ParseStripped(Strip(value))
  }

  /** Whitespace other than the separators is skipped around the number,
      the separators are not. */
  lemma ParseIntWhitespace()
    ensures ParseInt(" 7\n") == Some(7) && ParseInt("\U{a0}-7\U{3000}") == Some(-7)
    ensures ParseInt("\U{1c}7") == None && ParseInt("7\U{1f}") == None
  {
    assert !HasSeparator(" 7\n") && !HasSeparator("\U{a0}-7\U{3000}");
    assert "\U{1c}7"[0] == '\U{1c}' && "7\U{1f}"[1] == '\U{1f}';
    assert Strip(" 7\n") == "7" by {
      assert TrimLeft(" 7\n") == TrimLeft("7\n") == "7\n";
      assert TrimRight("7\n") == TrimRight("7") == "7";
    }
    assert Strip("\U{a0}-7\U{3000}") == "-7" by {
      assert TrimLeft("\U{a0}-7\U{3000}") == TrimLeft("-7\U{3000}") == "-7\U{3000}";
      assert TrimRight("-7\U{3000}") == TrimRight("-7") == "-7";
    }
    assert DigitGroups("7") && DigitsValue("7") == 7;
  }

  /** `int()` on text without surrounding whitespace. */
  function ParseStripped(t: string): Option<int> {
    if |t| > 0 && (t[0] == '-' || t[0] == '+') then
      var body := t[1..];
      var magnitude: int := DigitsValue(body);
      if DigitGroups(body) then Some(if t[0] == '-' then -magnitude else magnitude)
      else None
    else if DigitGroups(t) then Some(DigitsValue(t))
    else None
  }

  /** The decimal numeral of a natural number. */
  function NatToString(n: nat): (s: string)
    ensures |s| > 0 && forall i | 0 <= i < |s| :: IsDigit(s[i])
    decreases n
  {
    if n < 10 then [DigitChar(n)] else NatToString(n / 10) + [DigitChar(n % 10)]
  }

  /** The decimal numeral of an integer, as Python's `str(n)` writes it. */
  function IntToString(n: int): string {
    if n < 0 then "-" + NatToString(-n) else NatToString(n)
  }

  lemma {:induction false} DigitsValueOfNumeral(n: nat)
    ensures DigitsValue(NatToString(n)) == n
    decreases n
  {
    if n >= 10 {
      var s := NatToString(n);
      DigitsValueOfNumeral(n / 10);
      assert s[..|s| - 1] == NatToString(n / 10);
    }
  }

  lemma NumeralGroups(n: nat)
    ensures DigitGroups(NatToString(n))
    ensures !IsSpace(NatToString(n)[0]) && !IsSpace(NatToString(n)[|NatToString(n)| - 1])
  {
    var s := NatToString(n);
    assert IsDigit(s[0]) && IsDigit(s[|s| - 1]);
  }

  /** `int()` reads back every numeral `str()` writes. */
  lemma ParseIntRoundTrip(n: int)
    ensures ParseInt(IntToString(n)) == Some(n)
  {
    var digits := NatToString(if n < 0 then -n else n);
    assert forall i | 0 <= i < |IntToString(n)| :: IntToString(n)[i] == '-' || IsDigit(IntToString(n)[i]) by {
      if n < 0 {
        forall i | 0 <= i < |IntToString(n)| ensures IntToString(n)[i] == '-' || IsDigit(IntToString(n)[i]) {
          if i > 0 {
            assert IntToString(n)[i] == digits[i - 1];
          }
        }
      }
    }
    NumeralStripped(n);
    NumeralParses(n);
  }

  /** A numeral has no surrounding whitespace. */
  lemma NumeralStripped(n: int)
    ensures Strip(IntToString(n)) == IntToString(n)
  {
    var digits := NatToString(Abs(n));
    var s := IntToString(n);
    NumeralGroups(Abs(n));
    assert s[|s| - 1] == digits[|digits| - 1];
    assert !IsSpace(s[0]) && !IsSpace(s[|s| - 1]);
    StripUnchanged(s);
  }

  /** The sign and the digit groups of a numeral read back as its value. */
  lemma NumeralParses(n: int)
    ensures ParseStripped(IntToString(n)) == Some(n)
  {
    var digits := NatToString(Abs(n));
    NumeralGroups(Abs(n));
    DigitsValueOfNumeral(Abs(n));
    if n < 0 {
      var s := "-" + digits;
      assert s[1..] == digits;
      SignedStripped(s);
    } else {
      UnsignedStripped(digits);
    }
  }

  lemma UnsignedStripped(t: string)
    requires DigitGroups(t)
    ensures ParseStripped(t) == Some(DigitsValue(t))
  {
    assert !(t[0] == '-' || t[0] == '+');
  }

  lemma SignedStripped(t: string)
    requires |t| > 1 && t[0] == '-' && DigitGroups(t[1..])
    ensures ParseStripped(t) == Some(-(DigitsValue(t[1..]) as int))
  {
  }

  /** Only the numerals of 0 and 1 are the two one-digit boolean words. */
  lemma NumeralNotWord(n: int)
    requires n != 0 && n != 1
    ensures IntToString(n) !in TrueWords && IntToString(n) !in FalseWords
  {
    var s := IntToString(n);
    if n >= 10 {
      assert |NatToString(n)| >= 2;
      assert IsDigit(s[0]) && IsDigit(s[1]);
    } else if n >= 0 {
      assert s == [DigitChar(n)];
    } else {
      assert s[0] == '-';
    }
  }

  const TrueWords: seq<string> := ["true", "yes", "on", "1"]
  const FalseWords: seq<string> := ["false", "no", "off", "0"]

  /** `_parse_value`: boolean words first (case-insensitive), then a number
      (`float()` when the text has a dot, else `int()`), then a comma list of
      recursively parsed stripped parts, else the text itself.  Python's
      `float()` is the parameter `parseFloat`. */
  function ParseValue(value: string, parseFloat: string -> Option<real>): Node
    decreases |value|
  {
    var low := Lower(value);
    if low in TrueWords then Leaf(Bool(true))
    else if low in FalseWords then Leaf(Bool(false))
    else if '.' in value && parseFloat(value).Some? then Leaf(Float(parseFloat(value).value))
    else if '.' !in value && ParseInt(value).Some? then Leaf(Int(ParseInt(value).value))
    else if ',' in value then
      var parts := Split(value, ',');
      SplitShorter(value, ',');
      List(seq(|parts|, i requires 0 <= i < |parts| => ParseValue(Strip(parts[i]), parseFloat)))
    else Leaf(Str(value))
  }

  /** The boolean words win over numbers: `"1"` and `"0"` are booleans, and so
      is any capitalisation of the six words. */
  lemma ParseBooleans(value: string, parseFloat: string -> Option<real>)
    ensures Lower(value) in TrueWords ==> ParseValue(value, parseFloat) == Leaf(Bool(true))
    ensures Lower(value) in FalseWords ==> ParseValue(value, parseFloat) == Leaf(Bool(false))
    ensures ParseValue("1", parseFloat) == Leaf(Bool(true)) && ParseValue("0", parseFloat) == Leaf(Bool(false))
    ensures ParseValue("Yes", parseFloat) == Leaf(Bool(true)) && ParseValue("OFF", parseFloat) == Leaf(Bool(false))
  {
    assert Lower("1") == "1";
    assert Lower("0") == "0";
    assert Lower("Yes") == "yes";
    assert Lower("OFF") == "off";
  }

  /** A decimal integer other than 0 and 1 parses to that integer. */
  lemma ParseIntegers(n: int, parseFloat: string -> Option<real>)
    requires n != 0 && n != 1
    ensures ParseValue(IntToString(n), parseFloat) == Leaf(Int(n))
  {
    ParseIntRoundTrip(n);
    NumeralNotWord(n);
    NumeralPlain(n);
  }

  /** A numeral has no upper-case letter and no decimal point. */
  lemma NumeralPlain(n: int)
    ensures Lower(IntToString(n)) == IntToString(n) && '.' !in IntToString(n)
  {
    var s := IntToString(n);
    var digits := NatToString(Abs(n));
    assert forall i | 0 <= i < |digits| :: LowerChar(digits[i]) == digits[i] && digits[i] != '.';
    if n < 0 {
      assert forall i | 1 <= i < |s| :: s[i] == digits[i - 1];
    }
    assert forall i | 0 <= i < |s| :: LowerChar(s[i]) == s[i] && s[i] != '.';
    assert Lower(s) == s;
  }

  /** A comma-separated value that is neither a boolean word nor a number is
      the list of its stripped, recursively parsed parts. */
  lemma ParseLists(value: string, parseFloat: string -> Option<real>)
    requires Lower(value) !in TrueWords && Lower(value) !in FalseWords
    requires '.' !in value && ParseInt(value).None? && ',' in value
    ensures var parts := Split(value, ',');
            ParseValue(value, parseFloat).List? &&
            |ParseValue(value, parseFloat).items| == |parts| &&
            forall i | 0 <= i < |parts| ::
              ParseValue(value, parseFloat).items[i] == ParseValue(Strip(parts[i]), parseFloat)
  {
  }

  /** Text that none of the other readings accepts is kept as a string. */
  lemma ParseStrings(value: string, parseFloat: string -> Option<real>)
    requires Lower(value) !in TrueWords && Lower(value) !in FalseWords
    requires ',' !in value
    requires '.' in value ==> parseFloat(value).None?
    requires '.' !in value ==> ParseInt(value).None?
    ensures ParseValue(value, parseFloat) == Leaf(Str(value))
  {
  }

  // ---------------------------------------------------------------------
  // EnvironmentLoader.load_environment_variables

  const DefaultPrefix := "PRICE_TRACKER_"

  /** Store `v` at the nested path `keys`, creating missing dictionaries on
      the way; a non-dictionary on the way makes the source raise TypeError. */
  function InsertEnv(d: Config, keys: seq<string>, v: Node): (r: Result<Config, Crash>)
    requires |keys| >= 1
    ensures r.Ok? ==> LookupPath(Dict(r.value), keys) == Some(v)
    decreases |keys|
  {
    if |keys| == 1 then Ok(d[keys[0] := v])
    else
      var child := if keys[0] in d then d[keys[0]] else Dict(map[]);
      if !child.Dict? then Err(TypeError)
      else
        match InsertEnv(child.entries, keys[1..], v)
        case Err(e) => Err(e)
        case Ok(sub) => Ok(d[keys[0] := Dict(sub)])
  }

  /** A successful insertion changes nothing off its path: a path that
      parts from `keys` reads the same after it as before. */
  lemma {:induction false} InsertEnvLeavesOthers(d: Config, keys: seq<string>, v: Node, q: seq<string>)
    requires |keys| >= 1 && Diverge(keys, q)
    requires InsertEnv(d, keys, v).Ok?
    ensures LookupPath(Dict(InsertEnv(d, keys, v).value), q) == LookupPath(Dict(d), q)
    decreases |keys|
  {
    var i :| 0 <= i < |keys| && i < |q| && keys[..i] == q[..i] && keys[i] != q[i];
    if i > 0 {
      assert q[0] == keys[0] by { assert q[..i][0] == keys[..i][0]; }
      var child := if keys[0] in d then d[keys[0]].entries else map[];
      assert keys[1..][..i - 1] == q[1..][..i - 1] by {
        assert keys[1..][..i - 1] == keys[..i][1..];
        assert q[1..][..i - 1] == q[..i][1..];
      }
      assert Diverge(keys[1..], q[1..]) by {
        assert keys[1..][i - 1] == keys[i] && q[1..][i - 1] == q[i];
      }
      assert |keys| > 1;
      InsertEnvLeavesOthers(child, keys[1..], v, q[1..]);
      if keys[0] !in d {
        assert LookupPath(Dict(child), q[1..]) == None by {
          assert |q[1..]| > 0 && q[1..][0] !in child;
        }
      }
    }
  }

  /** The insertion fails exactly when a proper prefix of the path already
      leads to a value that is not a dictionary. */
  lemma {:induction false} InsertEnvFails(d: Config, keys: seq<string>, v: Node)
    requires |keys| >= 1
    ensures InsertEnv(d, keys, v).Err? <==>
            exists i | 1 <= i < |keys| :: BlockedAt(d, keys, i)
    decreases |keys|
  {
    if |keys| > 1 {
      var child := if keys[0] in d then d[keys[0]] else Dict(map[]);
      if !child.Dict? {
        assert BlockedAt(d, keys, 1);
      } else {
        InsertEnvFails(child.entries, keys[1..], v);
        if keys[0] in d {
          forall i | 2 <= i < |keys|
            ensures BlockedAt(d, keys, i) <==> BlockedAt(child.entries, keys[1..], i - 1)
          {
            assert keys[..i] == [keys[0]] + keys[1..][..i - 1];
            assert keys[1..][..i - 1] == keys[1..i];
          }
          assert !BlockedAt(d, keys, 1);
          if InsertEnv(d, keys, v).Err? {
            var j :| 1 <= j < |keys| - 1 && BlockedAt(child.entries, keys[1..], j);
            assert BlockedAt(d, keys, j + 1);
          }
        } else {
          assert !BlockedAt(d, keys, 1);
          forall i | 2 <= i < |keys| ensures !BlockedAt(d, keys, i) {
            assert keys[..i][0] == keys[0];
          }
          forall i | 1 <= i < |keys| - 1 ensures !BlockedAt(child.entries, keys[1..], i) {
          }
        }
      }
    }
  }

  /** The first `i` keys lead through `d` to a value that is not a dictionary. */
  predicate BlockedAt(d: Config, keys: seq<string>, i: nat)
    requires i <= |keys|
  {
    var at := LookupPath(Dict(d), keys[..i]);
    at.Some? && !at.value.Dict?
  }

  /** The nested path an environment variable name stands for. */
  function EnvPath(name: string, prefix: string): (path: seq<string>)
    requires StartsWith(name, prefix)
    ensures |path| >= 1
  {
    Split(Lower(name[|prefix|..]), '_')
  }

  /** The configuration built from the first variables of `env`, in order. */
  function EnvFold(env: seq<(string, string)>, prefix: string, parseFloat: string -> Option<real>): Result<Config, Crash>
    decreases |env|
  {
    if |env| == 0 then Ok(map[])
    else
      match EnvFold(env[..|env| - 1], prefix, parseFloat)
      case Err(e) => Err(e)
      case Ok(acc) =>
        var (name, value) := env[|env| - 1];
        if StartsWith(name, prefix) then InsertEnv(acc, EnvPath(name, prefix), ParseValue(value, parseFloat))
        else Ok(acc)
  }

  /** `load_environment_variables` over a given environment: every variable
      that carries the prefix is stored, in order, at its nested path. */
  method LoadEnvironmentVariables(env: seq<(string, string)>, prefix: string, parseFloat: string -> Option<real>)
    returns (r: Result<Config, Crash>)
    ensures r == EnvFold(env, prefix, parseFloat)
  {
    var envConfig: Config := map[];
    var i := 0;
    while i < |env|
      invariant 0 <= i <= |env|
      invariant EnvFold(env[..i], prefix, parseFloat) == Ok(envConfig)
    {
      assert env[..i + 1][..i] == env[..i];
      var (name, value) := env[i];
      if StartsWith(name, prefix) {
        var keys := EnvPath(name, prefix);
        var inserted := InsertEnv(envConfig, keys, ParseValue(value, parseFloat));
        if inserted.Err? {
          EnvFailsOnward(env, prefix, parseFloat, i + 1);
          return inserted;
        }
        envConfig := inserted.value;
      }
      i := i + 1;
    }
    assert env[..|env|] == env;
    r := Ok(envConfig);
  }

  lemma {:induction false} EnvFailsOnward(env: seq<(string, string)>, prefix: string, parseFloat: string -> Option<real>, i: nat)
    requires i <= |env| && EnvFold(env[..i], prefix, parseFloat).Err?
    ensures EnvFold(env, prefix, parseFloat) == EnvFold(env[..i], prefix, parseFloat)
    decreases |env| - i
  {
    if i < |env| {
      assert env[..i + 1][..i] == env[..i];
      EnvFailsOnward(env, prefix, parseFloat, i + 1);
    } else {
      assert env[..i] == env;
    }
  }

  /** The variables that carry the prefix, in order. */
  function Prefixed(env: seq<(string, string)>, prefix: string): (r: seq<(string, string)>)
    ensures forall i | 0 <= i < |r| :: StartsWith(r[i].0, prefix)
    decreases |env|
  {
    if |env| == 0 then []
    else
      var rest := Prefixed(env[..|env| - 1], prefix);
      if StartsWith(env[|env| - 1].0, prefix) then rest + [env[|env| - 1]] else rest
  }

  /** Variables without the prefix are ignored. */
  lemma {:induction false} UnprefixedIgnored(env: seq<(string, string)>, prefix: string, parseFloat: string -> Option<real>)
    ensures EnvFold(env, prefix, parseFloat) == EnvFold(Prefixed(env, prefix), prefix, parseFloat)
    decreases |env|
  {
    if |env| > 0 {
      var init := env[..|env| - 1];
      UnprefixedIgnored(init, prefix, parseFloat);
      var rest := Prefixed(init, prefix);
      if StartsWith(env[|env| - 1].0, prefix) {
        var p := rest + [env[|env| - 1]];
        assert p[..|p| - 1] == rest;
      }
    }
  }

  /** A prefixed variable `PREFIX` + `A_B_C` that the loader accepts ends up
      at the nested path `a`, `b`, `c`, holding its parsed value. */
  lemma EnvVariableStored(env: seq<(string, string)>, prefix: string, parseFloat: string -> Option<real>,
                          name: string, value: string)
    requires StartsWith(name, prefix)
    requires EnvFold(env + [(name, value)], prefix, parseFloat).Ok?
    ensures LookupPath(Dict(EnvFold(env + [(name, value)], prefix, parseFloat).value),
                       Split(Lower(name[|prefix|..]), '_'))
            == Some(ParseValue(value, parseFloat))
  {
    var all := env + [(name, value)];
    assert all[..|all| - 1] == env;
  }
}
