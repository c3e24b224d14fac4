/** `src/config/validator.py`: the rule table of typed, ranged fields, the
    custom checks, the min/max logic checks, and the `HH:MM` recogniser.
    The check methods of `ConfigValidator` append to its `errors` and
    `warnings` fields, which `validate` resets; every member below says what
    they hold afterwards in terms of pure specification functions. */
module Validator {
  import opened Common
  import opened Text
  import opened ConfigTree

  // ---------------------------------------------------------------------
  // Messages

  /** The logical pairs `_validate_logic` compares. */
  datatype Pair = DelayPair | ThinkPair | SpeedPair

  /** One entry of `errors`; the source's message text carries the same data. */
  datatype ValidationError =
    | WrongType(key: string)
    | BelowMin(key: string)
    | AboveMax(key: string)
    | BadProxy(proxy: Node)
    | BadTime(text: string)
    | NoDatabaseHost
    | NoDatabaseName
    | MinAboveMax(pair: Pair)

  /** One entry of `warnings`. */
  datatype Warning = DubiousEmail(email: string)

  // ---------------------------------------------------------------------
  // VALIDATION_RULES

  /** The `type` a rule demands. */
  datatype FieldType = FloatT | IntT | BoolT

  datatype Rule = Rule(key: string, ty: FieldType, min: Option<real>, max: Option<real>)

  function Ranged(key: string, ty: FieldType, lo: real, hi: real): Rule {
    Rule(key, ty, Some(lo), Some(hi))
  }

  /** The rule table, in its declaration order. */
  const Rules: seq<Rule> := [
    Ranged("human_simulator.min_delay", FloatT, 0.01, 5.0),
    Ranged("human_simulator.max_delay", FloatT, 0.01, 5.0),
    Ranged("human_simulator.think_time_min", FloatT, 0.01, 10.0),
    Ranged("human_simulator.think_time_max", FloatT, 0.01, 10.0),
    Ranged("human_simulator.speed_min", FloatT, 0.1, 5.0),
    Ranged("human_simulator.speed_max", FloatT, 0.1, 5.0),
    Ranged("human_simulator.curve_factor", FloatT, 0.0, 1.0),
    Ranged("human_simulator.jitter_factor", FloatT, 0.0, 1.0),
    Ranged("human_simulator.error_probability", FloatT, 0.0, 0.5),
    Ranged("human_simulator.error_correction_probability", FloatT, 0.0, 1.0),
    Ranged("browser.physical.window_width", IntT, 800.0, 4096.0),
    Ranged("browser.physical.window_height", IntT, 600.0, 2160.0),
    Rule("browser.network.headless", BoolT, None, None),
    Rule("browser.network.disable_images", BoolT, None, None),
    Ranged("browser.network.max_login_attempts", IntT, 1.0, 10.0),
    Ranged("browser.network.login_timeout", IntT, 10.0, 300.0),
    Ranged("browser.network.cookies_expiry_days", IntT, 1.0, 30.0),
    Ranged("search.max_pages", IntT, 1.0, 100.0),
    Ranged("search.scroll_pause", FloatT, 0.1, 10.0),
    Ranged("search.items_per_page", IntT, 10.0, 100.0),
    Ranged("vision.match_threshold", FloatT, 0.1, 1.0),
    Ranged("vision.preprocessing.resize_factor", FloatT, 0.5, 4.0),
    Ranged("database.backup_days", IntT, 1.0, 365.0),
    Ranged("database.connection_pool_size", IntT, 1.0, 50.0),
    Ranged("scheduler.max_runtime", IntT, 60.0, 86400.0),
    Ranged("scheduler.retry_attempts", IntT, 0.0, 10.0),
    Ranged("scheduler.retry_delay", IntT, 10.0, 3600.0),
    Ranged("price_alert.check_interval", IntT, 60.0, 86400.0),
    Ranged("price_alert.drop_threshold", FloatT, 0.0, 1.0),
    Ranged("price_alert.rise_threshold", FloatT, 0.0, 1.0)
  ]

  /** Python's `isinstance`: an int is not a float, and a bool is an int. */
  predicate HasType(v: Node, ty: FieldType) {
    match ty
    case FloatT => v.Leaf? && v.v.Float?
    case IntT => v.Leaf? && (v.v.Int? || v.v.Bool?)
    case BoolT => v.Leaf? && v.v.Bool?
  }

  predicate IsNumber(v: Node) {
    v.Leaf? && (v.v.Int? || v.v.Float? || v.v.Bool?)
  }

  /** The numeric value Python compares: `True` is 1 and `False` is 0. */
  function NumberOf(v: Node): real
    requires IsNumber(v)
  {
    match v.v
    case Int(i) => i as real
    case Float(r) => r
    case Bool(b) => if b then 1.0 else 0.0
  }

  /** `value is None`: the field is absent or holds `None`. */
  predicate IsAbsent(found: Option<Node>) {
    found.None? || found.value == None_
  }

  /** The errors one rule adds for `config`. */
  function RuleErrors(config: Config, rule: Rule): seq<ValidationError> {
    var found := Lookup(config, rule.key);
    if IsAbsent(found) then []
    else if !HasType(found.value, rule.ty) then [WrongType(rule.key)]
    else
      var x := NumberOf(found.value);
      (if rule.min.Some? && x < rule.min.value then [BelowMin(rule.key)] else []) +
      (if rule.max.Some? && x > rule.max.value then [AboveMax(rule.key)] else [])
  }

  /** The errors of the first rules of a table, in table order. */
  function RulesErrors(config: Config, rules: seq<Rule>): seq<ValidationError>
    decreases |rules|
  {
    if |rules| == 0 then [] else RulesErrors(config, rules[..|rules| - 1]) + RuleErrors(config, rules[|rules| - 1])
  }

  lemma RulesErrorsStep(config: Config, rules: seq<Rule>, i: nat)
    requires i < |rules|
    ensures RulesErrors(config, rules[..i + 1]) == RulesErrors(config, rules[..i]) + RuleErrors(config, rules[i])
  {
    assert rules[..i + 1][..i] == rules[..i];
  }

  /** What one rule decides: an absent field passes; a wrongly typed one adds
      exactly one type error and no range error; a typed one adds a min error
      exactly when below the minimum and a max error exactly when above the
      maximum, so in-range values add nothing. */
  lemma RuleVerdict(config: Config, rule: Rule)
    ensures IsAbsent(Lookup(config, rule.key)) ==> RuleErrors(config, rule) == []
    ensures !IsAbsent(Lookup(config, rule.key)) && !HasType(Lookup(config, rule.key).value, rule.ty) ==>
              RuleErrors(config, rule) == [WrongType(rule.key)]
    ensures !IsAbsent(Lookup(config, rule.key)) && HasType(Lookup(config, rule.key).value, rule.ty) ==>
              var x := NumberOf(Lookup(config, rule.key).value);
              WrongType(rule.key) !in RuleErrors(config, rule) &&
              (BelowMin(rule.key) in RuleErrors(config, rule) <==> rule.min.Some? && x < rule.min.value) &&
              (AboveMax(rule.key) in RuleErrors(config, rule) <==> rule.max.Some? && x > rule.max.value) &&
              (RuleErrors(config, rule) == [] <==>
                 (rule.min.None? || rule.min.value <= x) && (rule.max.None? || x <= rule.max.value))
  {
  }

  /** An integer where a float is expected (`min_delay: 1`) is a type error. */
  lemma IntegerIsNotFloat(config: Config, rule: Rule, i: int)
    requires rule.ty == FloatT && Lookup(config, rule.key) == Some(Leaf(Int(i)))
    ensures RuleErrors(config, rule) == [WrongType(rule.key)]
  {
  }

  /** A boolean passes an integer rule and is ranged as 0 or 1. */
  lemma BooleanIsInteger(config: Config, rule: Rule)
    requires rule.ty == IntT && rule.min == Some(1.0) && (rule.max.None? || rule.max.value >= 0.0)
    requires Lookup(config, rule.key) == Some(Leaf(Bool(false)))
    ensures RuleErrors(config, rule) == [BelowMin(rule.key)]
  {
  }

  // ---------------------------------------------------------------------
  // _is_valid_time

  predicate HourDigits(a: char, b: char) {
    ('0' <= a <= '1' && IsDigit(b)) || (a == '2' && '0' <= b <= '3')
  }

  /** `re.match(r'^([0-1][0-9]|2[0-3]):([0-5][0-9])$', s)`: `$` also matches
      before one final newline. */
  predicate IsValidTime(s: string) {
    (|s| == 5 || (|s| == 6 && s[5] == '\n')) &&
    HourDigits(s[0], s[1]) && s[2] == ':' && '0' <= s[3] <= '5' && IsDigit(s[4])
  }

  /** The two-digit `HH:MM` text of a time of day. */
  function Clock(h: nat, m: nat): (s: string)
    requires h < 24 && m < 60
    ensures |s| == 5
  {
    [DigitChar(h / 10), DigitChar(h % 10), ':', DigitChar(m / 10), DigitChar(m % 10)]
  }

  /** Every time of day is accepted, with or without one trailing newline. */
  lemma ClockAccepted(h: nat, m: nat)
    requires h < 24 && m < 60
    ensures IsValidTime(Clock(h, m)) && IsValidTime(Clock(h, m) + "\n")
  {
    var s := Clock(h, m);
    assert DigitValue(s[0]) == h / 10 && DigitValue(s[1]) == h % 10;
    assert DigitValue(s[3]) == m / 10;
    assert HourDigits(s[0], s[1]);
    assert (s + "\n")[..5] == s;
  }

  /** And nothing else is: an accepted text is some hour 0..23 and minute
      0..59 written with two digits each, then at most a newline. */
  lemma ClockRecognised(s: string)
    requires IsValidTime(s)
    ensures var h := DigitValue(s[0]) * 10 + DigitValue(s[1]);
            var m := DigitValue(s[3]) * 10 + DigitValue(s[4]);
            0 <= h < 24 && 0 <= m < 60 && s[..5] == Clock(h, m) &&
            (s == Clock(h, m) || s == Clock(h, m) + "\n")
  {
    var h := DigitValue(s[0]) * 10 + DigitValue(s[1]);
    var m := DigitValue(s[3]) * 10 + DigitValue(s[4]);
    var c := Clock(h, m);
    assert c[0] == s[0] && c[1] == s[1] && c[3] == s[3] && c[4] == s[4];
    assert s[..5] == c;
    if |s| == 6 {
      assert s == s[..5] + "\n";
    } else {
      assert s == s[..5];
    }
  }

  // ---------------------------------------------------------------------
  // Composed outcomes

  /** The messages a step adds, and the exception, if any, that stopped it
      (the messages before the exception stay in the validator's fields). */
  datatype Outcome = Outcome(errors: seq<ValidationError>, warnings: seq<Warning>, crash: Option<Crash>)

  const Quiet := Outcome([], [], None)

  function Crashed(c: Crash): Outcome { Outcome([], [], Some(c)) }

  /** Run `a`, then `b` unless `a` raised. */
  function Then(a: Outcome, b: Outcome): Outcome {
    if a.crash.Some? then a else Outcome(a.errors + b.errors, a.warnings + b.warnings, b.crash)
  }

  /** Run the steps in order until one raises. */
  function Chain(steps: seq<Outcome>): Outcome
    decreases |steps|
  {
    if |steps| == 0 then Quiet else Then(Chain(steps[..|steps| - 1]), steps[|steps| - 1])
  }

  /** Once a prefix of the steps raises, the later steps are not run. */
  lemma {:induction false} ChainCrashOnward(steps: seq<Outcome>, i: nat)
    requires i <= |steps| && Chain(steps[..i]).crash.Some?
    ensures Chain(steps) == Chain(steps[..i])
    decreases |steps| - i
  {
    if i < |steps| {
      assert steps[..i + 1][..i] == steps[..i];
      ChainCrashOnward(steps, i + 1);
    } else {
      assert steps[..i] == steps;
    }
  }

  // ---------------------------------------------------------------------
  // _validate_custom

  /** The e-mail check: a doubtful address only warns.  `emailOk` stands for
      the regular expression of `_is_valid_email`; a non-string address makes
      `re.match` raise TypeError. */
  function EmailCheck(config: Config, emailOk: string -> bool): Outcome {
    match SectionOf(config, "monitoring")
    case Err(e) => Crashed(e)
    case Ok(monitoring) =>
      match SectionOf(monitoring, "error_notification")
      case Err(e) => Crashed(e)
      case Ok(notification) =>
        var email := GetOrNull(notification, "email");
        if !Truthy(email) then Quiet
        else if !(email.Leaf? && email.v.Str?) then Crashed(TypeError)
        else if emailOk(email.v.s) then Quiet
        else Outcome([], [DubiousEmail(email.v.s)], None)
  }

  /** The proxy check; `urlOk` stands for `_is_valid_url`, which catches its
      own exceptions. */
  function ProxyCheck(config: Config, urlOk: Node -> bool): Outcome {
    match SectionOf(config, "browser")
    case Err(e) => Crashed(e)
    case Ok(browser) =>
      var proxy := GetOrNull(browser, "proxy");
      if Truthy(proxy) && !urlOk(proxy) then Outcome([BadProxy(proxy)], [], None) else Quiet
  }

  /** The time check over a list of execution times. */
  function TimeItemsCheck(items: seq<Node>): Outcome
    decreases |items|
  {
    if |items| == 0 then Quiet
    else
      var init := TimeItemsCheck(items[..|items| - 1]);
      var item := items[|items| - 1];
      Then(init,
        if !(item.Leaf? && item.v.Str?) then Crashed(TypeError)
        else if IsValidTime(item.v.s) then Quiet
        else Outcome([BadTime(item.v.s)], [], None))
  }

  /** Iterating a string visits its characters, none of which is a time. */
  function CharErrors(s: string): (r: seq<ValidationError>)
    ensures |r| == |s|
  {
    seq(|s|, i requires 0 <= i < |s| => BadTime([s[i]]))
  }

  /** The keys of a dictionary as the string values iterating it yields. */
  function KeyNodes(keys: seq<string>): (r: seq<Node>)
    ensures |r| == |keys| && forall i | 0 <= i < |keys| :: r[i] == StrNode(keys[i])
  {
    seq(|keys|, i requires 0 <= i < |keys| => StrNode(keys[i]))
  }

  /** The scheduler's time check.  A list is checked item by item, a
      string character by character, a dictionary key by key (in ascending
      key order); any other truthy value is not iterable. */
  function TimesCheck(config: Config): Outcome {
    match SectionOf(config, "scheduler")
    case Err(e) => Crashed(e)
    case Ok(scheduler) =>
      var times := GetOrNull(scheduler, "execution_times");
      if !Truthy(times) then Quiet
      else match times
        case List(items) => TimeItemsCheck(items)
        case Dict(m) => TimeItemsCheck(KeyNodes(SortedKeys(m.Keys)))
        case Leaf(Str(s)) => Outcome(CharErrors(s), [], None)
        case _ => Crashed(TypeError)
  }

  /** A list of strings never raises: it gives one error for each text that
      is not a time, and no other. */
  lemma {:induction false} StringTimesFlagged(keys: seq<string>)
    ensures var o := TimeItemsCheck(KeyNodes(keys));
      o.crash.None? && o.warnings == [] && |o.errors| <= |keys| &&
      (forall e | e in o.errors :: e.BadTime? && e.text in keys && !IsValidTime(e.text)) &&
      (forall k | k in keys && !IsValidTime(k) :: BadTime(k) in o.errors)
    decreases |keys|
  {
    if |keys| > 0 {
      var n := |keys| - 1;
      assert KeyNodes(keys)[..n] == KeyNodes(keys[..n]);
      StringTimesFlagged(keys[..n]);
      assert keys == keys[..n] + [keys[n]];
    }
  }

  /** A dictionary of times is checked by its keys: exactly the keys that
      are not times are reported, once each, and nothing raises. */
  lemma DictTimesVerdict(config: Config, m: map<string, Node>)
    requires "scheduler" in config && config["scheduler"].Dict?
    requires GetOrNull(config["scheduler"].entries, "execution_times") == Dict(m) && m != map[]
    ensures var o := TimesCheck(config);
      o.crash.None? && o.warnings == [] && |o.errors| <= |m| &&
      (forall e | e in o.errors :: e.BadTime? && e.text in m && !IsValidTime(e.text)) &&
      (forall k | k in m && !IsValidTime(k) :: BadTime(k) in o.errors)
  {
    StringTimesFlagged(SortedKeys(m.Keys));
  }

  /** `{"12:30": 1, "x": 2}` gives an error for `x` and none other. */
  lemma DictOfTimesExample(config: Config)
    requires config == map["scheduler" := Dict(map["execution_times" := Dict(map["12:30" := Leaf(Int(1)), "x" := Leaf(Int(2))])])]
    ensures TimesCheck(config).crash.None?
    ensures BadTime("x") in TimesCheck(config).errors
    ensures forall e | e in TimesCheck(config).errors :: e == BadTime("x")
  {
    var m := map["12:30" := Leaf(Int(1)), "x" := Leaf(Int(2))];
    assert IsValidTime("12:30") && !IsValidTime("x") && "x" in m;
    DictTimesVerdict(config, m);
  }

  /** The database check.  A configuration without a `database` section is
      not `sqlite`, so it reaches `config['database']` and raises KeyError. */
  function DatabaseCheck(config: Config): Outcome {
    match SectionOf(config, "database")
    case Err(e) => Crashed(e)
    case Ok(section) =>
      if GetOrNull(section, "type") == StrNode("sqlite") then Quiet
      else if "database" !in config then Crashed(KeyError("database"))
      else
        Outcome((if Truthy(GetOrNull(section, "host")) then [] else [NoDatabaseHost]) +
                (if Truthy(GetOrNull(section, "name")) then [] else [NoDatabaseName]), [], None)
  }

  function CustomChecks(config: Config, emailOk: string -> bool, urlOk: Node -> bool): Outcome {
    Chain([EmailCheck(config, emailOk), ProxyCheck(config, urlOk), TimesCheck(config), DatabaseCheck(config)])
  }

  /** The database branch: unless the type is `sqlite`, a missing or falsy
      host and a missing or falsy name each add one error, and a missing
      section raises. */
  lemma DatabaseVerdict(config: Config)
    ensures "database" !in config ==> DatabaseCheck(config) == Crashed(KeyError("database"))
    ensures "database" in config && config["database"].Dict? &&
            GetOrNull(config["database"].entries, "type") != StrNode("sqlite") ==>
              var db := config["database"].entries;
              DatabaseCheck(config).crash.None? &&
              (NoDatabaseHost in DatabaseCheck(config).errors <==> !Truthy(GetOrNull(db, "host"))) &&
              (NoDatabaseName in DatabaseCheck(config).errors <==> !Truthy(GetOrNull(db, "name"))) &&
              |DatabaseCheck(config).errors| <= 2
    ensures "database" in config && config["database"].Dict? &&
            GetOrNull(config["database"].entries, "type") == StrNode("sqlite") ==>
              DatabaseCheck(config) == Quiet
  {
  }

  // ---------------------------------------------------------------------
  // _validate_logic

  /** Python's `a == b` on two document values: numbers (booleans among
      them) numerically, strings by content, lists element by element,
      dictionaries key by key; values of different kinds are unequal. */
  predicate PyEq(a: Node, b: Node) {
    if IsNumber(a) && IsNumber(b) then NumberOf(a) == NumberOf(b)
    else match (a, b)
      case (Leaf(Null), Leaf(Null)) => true
      case (Leaf(Str(x)), Leaf(Str(y))) => x == y
      case (List(xs), List(ys)) => |xs| == |ys| && forall i | 0 <= i < |xs| :: PyEq(xs[i], ys[i])
      case (Dict(m1), Dict(m2)) => m1.Keys == m2.Keys && forall k | k in m1 :: PyEq(m1[k], m2[k])
      case _ => false
  }

  /** Equality is symmetric. */
  lemma PyEqSymmetric(a: Node, b: Node)
    ensures PyEq(a, b) == PyEq(b, a)
  {
    match (a, b)
    case (List(xs), List(ys)) =>
      forall i | 0 <= i < |xs| && i < |ys| ensures PyEq(xs[i], ys[i]) == PyEq(ys[i], xs[i]) {
        PyEqSymmetric(xs[i], ys[i]);
      }
    case (Dict(m1), Dict(m2)) =>
      forall k | k in m1 && k in m2 ensures PyEq(m1[k], m2[k]) == PyEq(m2[k], m1[k]) {
        PyEqSymmetric(m1[k], m2[k]);
      }
    case _ =>
  }

  /** The first position at which two lists hold unequal elements, or the
      shorter length when one is a prefix of the other. */
  function FirstDifference(xs: seq<Node>, ys: seq<Node>): (i: nat)
    ensures i <= |xs| && i <= |ys|
    ensures forall j | 0 <= j < i :: PyEq(xs[j], ys[j])
    ensures i < |xs| && i < |ys| ==> !PyEq(xs[i], ys[i])
    decreases |xs|
  {
    if |xs| == 0 || |ys| == 0 || !PyEq(xs[0], ys[0]) then 0
    else 1 + FirstDifference(xs[1..], ys[1..])
  }

  /** Python's `a > b` on two document values: numbers numerically, strings
      lexicographically, lists lexicographically (at their first unequal
      elements, else by length); other pairs raise TypeError. */
  function Greater(a: Node, b: Node): Result<bool, Crash> {
    if IsNumber(a) && IsNumber(b) then Ok(NumberOf(a) > NumberOf(b))
    else if a.Leaf? && b.Leaf? && a.v.Str? && b.v.Str? then Ok(StrLess(b.v.s, a.v.s))
    else if a.List? && b.List? then
      var i := FirstDifference(a.items, b.items);
      if i < |a.items| && i < |b.items| then Greater(a.items[i], b.items[i])
      else Ok(|a.items| > |b.items|)
    else Err(TypeError)
  }

  /** The comparison is asymmetric: when `a > b` holds, `b > a` is answered
      and is false. */
  lemma GreaterAsymmetric(a: Node, b: Node)
    requires Greater(a, b) == Ok(true)
    ensures Greater(b, a) == Ok(false)
  {
    if IsNumber(a) && IsNumber(b) {
    } else if a.Leaf? && b.Leaf? && a.v.Str? && b.v.Str? {
      StrLessTotal(b.v.s, a.v.s);
    } else {
      var i := FirstDifference(a.items, b.items);
      FirstDifferenceSymmetric(a.items, b.items);
      if i < |a.items| && i < |b.items| {
        GreaterAsymmetric(a.items[i], b.items[i]);
      }
    }
  }

  lemma {:induction false} FirstDifferenceSymmetric(xs: seq<Node>, ys: seq<Node>)
    ensures FirstDifference(xs, ys) == FirstDifference(ys, xs)
    decreases |xs|
  {
    if |xs| > 0 && |ys| > 0 {
      PyEqSymmetric(xs[0], ys[0]);
      FirstDifferenceSymmetric(xs[1..], ys[1..]);
    }
  }

  /** `[2] > [1]` and `[1, 2] > [1]`, while `[1] > [1.0]` is false. */
  lemma ListsCompareLexicographically()
    ensures Greater(List([Leaf(Int(2))]), List([Leaf(Int(1))])) == Ok(true)
    ensures Greater(List([Leaf(Int(1)), Leaf(Int(2))]), List([Leaf(Int(1))])) == Ok(true)
    ensures Greater(List([Leaf(Int(1))]), List([Leaf(Float(1.0))])) == Ok(false)
  {
    assert FirstDifference([Leaf(Int(2))], [Leaf(Int(1))]) == 0;
    assert FirstDifference([Leaf(Int(1)), Leaf(Int(2))], [Leaf(Int(1))]) == 1 by {
      assert FirstDifference([Leaf(Int(2))], []) == 0;
    }
    assert FirstDifference([Leaf(Int(1))], [Leaf(Float(1.0))]) == 1 by {
      assert FirstDifference([], []) == 0;
    }
  }

  function PairKeys(p: Pair): (string, string) {
    match p
    case DelayPair => ("min_delay", "max_delay")
    case ThinkPair => ("think_time_min", "think_time_max")
    case SpeedPair => ("speed_min", "speed_max")
  }

  /** One pair: an error when both values are truthy and the lower bound
      exceeds the upper. */
  function PairCheck(config: Config, p: Pair): Outcome {
    match SectionOf(config, "human_simulator")
    case Err(e) => Crashed(e)
    case Ok(sim) =>
      var lo := GetOrNull(sim, PairKeys(p).0);
      var hi := GetOrNull(sim, PairKeys(p).1);
      if !(Truthy(lo) && Truthy(hi)) then Quiet
      else match Greater(lo, hi)
        case Err(e) => Crashed(e)
        case Ok(g) => if g then Outcome([MinAboveMax(p)], [], None) else Quiet
  }

  const Pairs: seq<Pair> := [DelayPair, ThinkPair, SpeedPair]

  function LogicChecks(config: Config): Outcome {
    Chain([PairCheck(config, DelayPair), PairCheck(config, ThinkPair), PairCheck(config, SpeedPair)])
  }

  /** A numeric pair is flagged exactly when both values are non-zero and the
      minimum is above the maximum; equal values pass. */
  lemma PairVerdict(config: Config, p: Pair, lo: Node, hi: Node)
    requires "human_simulator" in config && config["human_simulator"].Dict?
    requires GetOrNull(config["human_simulator"].entries, PairKeys(p).0) == lo
    requires GetOrNull(config["human_simulator"].entries, PairKeys(p).1) == hi
    requires IsNumber(lo) && IsNumber(hi)
    ensures PairCheck(config, p).crash.None?
    ensures MinAboveMax(p) in PairCheck(config, p).errors <==>
            NumberOf(lo) != 0.0 && NumberOf(hi) != 0.0 && NumberOf(lo) > NumberOf(hi)
    ensures NumberOf(lo) == NumberOf(hi) ==> PairCheck(config, p) == Quiet
  {
    assert Truthy(lo) <==> NumberOf(lo) != 0.0;
    assert Truthy(hi) <==> NumberOf(hi) != 0.0;
  }

  /** Any pair: raised exactly when both values are truthy and `>` raises on
      them, flagged exactly when both are truthy and the minimum is greater. */
  lemma PairOutcome(config: Config, p: Pair, lo: Node, hi: Node)
    requires "human_simulator" in config && config["human_simulator"].Dict?
    requires GetOrNull(config["human_simulator"].entries, PairKeys(p).0) == lo
    requires GetOrNull(config["human_simulator"].entries, PairKeys(p).1) == hi
    ensures PairCheck(config, p).crash.Some? <==> Truthy(lo) && Truthy(hi) && Greater(lo, hi).Err?
    ensures MinAboveMax(p) in PairCheck(config, p).errors <==>
            Truthy(lo) && Truthy(hi) && Greater(lo, hi) == Ok(true)
    ensures |PairCheck(config, p).errors| <= 1
  {
  }

  // ---------------------------------------------------------------------
  // validate

  /** Everything `validate` appends, in order: rules, custom checks, the empty
      required-field list, logic checks. */
  function Validation(config: Config, rules: seq<Rule>, emailOk: string -> bool, urlOk: Node -> bool): Outcome {
    Then(Then(Outcome(RulesErrors(config, rules), [], None), CustomChecks(config, emailOk, urlOk)), LogicChecks(config))
  }

  /** What `validate` returns: the validity flag with both lists, or the
      exception it raised. */
  datatype Report = Report(valid: bool, errors: seq<ValidationError>, warnings: seq<Warning>)

  function ReportOf(o: Outcome): Result<Report, Crash> {
    if o.crash.Some? then Err(o.crash.value) else Ok(Report(o.errors == [], o.errors, o.warnings))
  }

  /** Two step sequences that agree on errors and exceptions step by step
      agree on them in the chain. */
  lemma {:induction false} ChainIgnoresWarnings(s1: seq<Outcome>, s2: seq<Outcome>)
    requires |s1| == |s2|
    requires forall i | 0 <= i < |s1| :: s1[i].errors == s2[i].errors && s1[i].crash == s2[i].crash
    ensures Chain(s1).errors == Chain(s2).errors && Chain(s1).crash == Chain(s2).crash
    decreases |s1|
  {
    if |s1| > 0 {
      ChainIgnoresWarnings(s1[..|s1| - 1], s2[..|s2| - 1]);
    }
  }

  /** Warnings never decide validity: a different e-mail predicate changes at
      most the warnings. */
  lemma WarningsDoNotMatter(config: Config, rules: seq<Rule>, e1: string -> bool, e2: string -> bool, urlOk: Node -> bool)
    ensures Validation(config, rules, e1, urlOk).errors == Validation(config, rules, e2, urlOk).errors
    ensures Validation(config, rules, e1, urlOk).crash == Validation(config, rules, e2, urlOk).crash
    ensures ReportOf(Validation(config, rules, e1, urlOk)).Ok? ==>
              ReportOf(Validation(config, rules, e2, urlOk)).Ok? &&
              ReportOf(Validation(config, rules, e1, urlOk)).value.valid == ReportOf(Validation(config, rules, e2, urlOk)).value.valid
  {
    CustomIgnoresEmail(config, e1, e2, urlOk);
    PhasesAgree(Outcome(RulesErrors(config, rules), [], None),
                CustomChecks(config, e1, urlOk), CustomChecks(config, e2, urlOk), LogicChecks(config));
  }

  /** The e-mail check only ever warns or raises, whatever the predicate. */
  lemma EmailWarnsOnly(config: Config, e1: string -> bool, e2: string -> bool)
    ensures EmailCheck(config, e1).errors == [] && EmailCheck(config, e2).errors == []
    ensures EmailCheck(config, e1).crash == EmailCheck(config, e2).crash
  {
  }

  /** The custom checks agree on errors and exceptions under any two e-mail
      predicates. */
  lemma CustomIgnoresEmail(config: Config, e1: string -> bool, e2: string -> bool, urlOk: Node -> bool)
    ensures CustomChecks(config, e1, urlOk).errors == CustomChecks(config, e2, urlOk).errors
    ensures CustomChecks(config, e1, urlOk).crash == CustomChecks(config, e2, urlOk).crash
  {
    EmailWarnsOnly(config, e1, e2);
    var s1 := [EmailCheck(config, e1), ProxyCheck(config, urlOk), TimesCheck(config), DatabaseCheck(config)];
    var s2 := [EmailCheck(config, e2), ProxyCheck(config, urlOk), TimesCheck(config), DatabaseCheck(config)];
    ChainIgnoresWarnings(s1, s2);
  }

  /** Two runs whose middle phases agree on errors and exceptions agree on
      them overall, and so on the reported validity. */
  lemma PhasesAgree(rules: Outcome, c1: Outcome, c2: Outcome, logic: Outcome)
    requires c1.errors == c2.errors && c1.crash == c2.crash
    ensures Then(Then(rules, c1), logic).errors == Then(Then(rules, c2), logic).errors
    ensures Then(Then(rules, c1), logic).crash == Then(Then(rules, c2), logic).crash
    ensures ReportOf(Then(Then(rules, c1), logic)).Ok? ==>
              ReportOf(Then(Then(rules, c2), logic)).Ok? &&
              ReportOf(Then(Then(rules, c1), logic)).value.valid == ReportOf(Then(Then(rules, c2), logic)).value.valid
  {
  }

  /** A configuration is reported valid exactly when the rules, the custom
      checks and the logic checks all added no error. */
  lemma ValidIffNoErrors(config: Config, rules: seq<Rule>, emailOk: string -> bool, urlOk: Node -> bool)
    ensures var r := ReportOf(Validation(config, rules, emailOk, urlOk));
            r.Ok? ==> (r.value.valid <==> r.value.errors == []) &&
                      (r.value.valid <==> RulesErrors(config, rules) == [] &&
                                          CustomChecks(config, emailOk, urlOk).errors == [] &&
                                          LogicChecks(config).errors == [])
  {
    ReportValidity(Outcome(RulesErrors(config, rules), [], None), CustomChecks(config, emailOk, urlOk), LogicChecks(config));
  }

  lemma ReportValidity(rules: Outcome, custom: Outcome, logic: Outcome)
    requires rules.warnings == [] && rules.crash.None?
    ensures var r := ReportOf(Then(Then(rules, custom), logic));
            r.Ok? ==> (r.value.valid <==> r.value.errors == []) &&
                      (r.value.valid <==> rules.errors == [] && custom.errors == [] && logic.errors == [])
  {
    ValidationSteps(rules, custom, logic);
    assert |rules.errors + custom.errors + logic.errors| == |rules.errors| + |custom.errors| + |logic.errors|;
  }

  // ---------------------------------------------------------------------
  // The validator object

  class ConfigValidator {
    /** `VALIDATION_RULES`, the table every validation checks. */
    const rules: seq<Rule>
    var errors: seq<ValidationError>
    var warnings: seq<Warning>

    constructor()
      ensures rules == Rules && errors == [] && warnings == []
    {
      rules := Rules;
      errors := [];
      warnings := [];
    }

    /** `_get_nested_value`: walk the dotted path one segment at a time. */
    static method GetNestedValue(config: Config, key: string) returns (found: Option<Node>)
      ensures found == Lookup(config, key)
      ensures found.Some? ==> forall i | 0 < i <= |Split(key, '.')| ::
                LookupPath(Dict(config), Split(key, '.')[..i]).Some?
    {
      var keys := Split(key, '.');
      var value := Dict(config);
      var i := 0;
      while i < |keys|
        invariant 0 <= i <= |keys|
        invariant LookupPath(Dict(config), keys[..i]) == Some(value)
        invariant LookupPath(Dict(config), keys) == LookupPath(value, keys[i..])
      {
        if value.Dict? && keys[i] in value.entries {
          LookupPathAppend(Dict(config), keys[..i], [keys[i]]);
          assert keys[..i] + [keys[i]] == keys[..i + 1];
          value := value.entries[keys[i]];
          assert keys[i..][1..] == keys[i + 1..];
          i := i + 1;
        } else {
          return None;
        }
      }
      found := Some(value);
      forall j | 0 < j <= |keys| ensures LookupPath(Dict(config), keys[..j]).Some? {
        PrefixFound(Dict(config), keys, j);
      }
    }

    /** `_validate_rules`: every rule of the table in order. */
    method ValidateRules(config: Config, rules: seq<Rule>)
      modifies this`errors
      ensures errors == old(errors) + RulesErrors(config, rules)
    {
      var i := 0;
      while i < |rules|
        invariant 0 <= i <= |rules|
        invariant errors == old(errors) + RulesErrors(config, rules[..i])
      {
        RulesErrorsStep(config, rules, i);
        ValidateRule(config, rules[i]);
        ConcatAssoc(old(errors), RulesErrors(config, rules[..i]), RuleErrors(config, rules[i]));
        i := i + 1;
      }
      assert rules[..|rules|] == rules;
    }

    /** One rule of `_validate_rules`: skip an absent field, report a wrong
        type, else test the minimum and then the maximum. */
    method ValidateRule(config: Config, rule: Rule)
      modifies this`errors
      ensures errors == old(errors) + RuleErrors(config, rule)
    {
      var value := GetNestedValue(config, rule.key);
      if IsAbsent(value) {
      } else if !HasType(value.value, rule.ty) {
        errors := errors + [WrongType(rule.key)];
      } else {
        var x := NumberOf(value.value);
        if rule.min.Some? && x < rule.min.value {
          errors := errors + [BelowMin(rule.key)];
        }
        if rule.max.Some? && x > rule.max.value {
          errors := errors + [AboveMax(rule.key)];
        }
      }
    }

    /** Append what the steps add, in order, up to the first exception. */
    method RecordAll(steps: seq<Outcome>) returns (crash: Option<Crash>)
      modifies this`errors, this`warnings
      ensures errors == old(errors) + Chain(steps).errors && warnings == old(warnings) + Chain(steps).warnings
      ensures crash == Chain(steps).crash
    {
      var i := 0;
      while i < |steps|
        invariant 0 <= i <= |steps|
        invariant Chain(steps[..i]).crash.None?
        invariant errors == old(errors) + Chain(steps[..i]).errors
        invariant warnings == old(warnings) + Chain(steps[..i]).warnings
      {
        assert steps[..i + 1][..i] == steps[..i];
        errors := errors + steps[i].errors;
        warnings := warnings + steps[i].warnings;
        if steps[i].crash.Some? {
          ChainCrashOnward(steps, i + 1);
          return steps[i].crash;
        }
        i := i + 1;
      }
      assert steps[..|steps|] == steps;
      crash := None;
    }

    /** `_validate_custom`: e-mail, proxy, execution times, database. */
    method ValidateCustom(config: Config, emailOk: string -> bool, urlOk: Node -> bool) returns (crash: Option<Crash>)
      modifies this`errors, this`warnings
      ensures var o := CustomChecks(config, emailOk, urlOk);
              errors == old(errors) + o.errors && warnings == old(warnings) + o.warnings && crash == o.crash
    {
      var times := CheckTimes(config);
      crash := RecordAll([EmailCheck(config, emailOk), ProxyCheck(config, urlOk), times, DatabaseCheck(config)]);
    }

    /** `_validate_logic`: the three pairs in order. */
    method ValidateLogic(config: Config) returns (crash: Option<Crash>)
      modifies this`errors, this`warnings
      ensures var o := LogicChecks(config);
              errors == old(errors) + o.errors && warnings == old(warnings) + o.warnings && crash == o.crash
    {
      crash := RecordAll([PairCheck(config, DelayPair), PairCheck(config, ThinkPair), PairCheck(config, SpeedPair)]);
    }

    /** `validate`: reset both lists, run every check, and report validity as
        the absence of errors.  An exception leaves the messages gathered up
        to it in the fields. */
    method Validate(config: Config, emailOk: string -> bool, urlOk: Node -> bool) returns (r: Result<Report, Crash>)
      modifies this`errors, this`warnings
      ensures var o := Validation(config, rules, emailOk, urlOk);
              errors == o.errors && warnings == o.warnings && r == ReportOf(o)
    {
      ghost var checked := Outcome(RulesErrors(config, rules), [], None);
      ghost var custom := CustomChecks(config, emailOk, urlOk);
      ghost var logic := LogicChecks(config);
      ValidationSteps(checked, custom, logic);
      errors := [];
      warnings := [];
      ValidateRules(config, rules);
      assert errors == checked.errors;
      var crash := ValidateCustom(config, emailOk, urlOk);
      assert errors == checked.errors + custom.errors && warnings == custom.warnings && crash == custom.crash;
      if crash.None? {
        crash := ValidateLogic(config);
        assert errors == checked.errors + custom.errors + logic.errors;
        assert warnings == custom.warnings + logic.warnings && crash == logic.crash;
      }
      r := if crash.Some? then Err(crash.value) else Ok(Report(errors == [], errors, warnings));
    }
  }

  /** The three phases of `validate` composed. */
  lemma ValidationSteps(rules: Outcome, custom: Outcome, logic: Outcome)
    requires rules.warnings == [] && rules.crash.None?
    ensures var o := Then(Then(rules, custom), logic);
            custom.crash.Some? ==> o == Outcome(rules.errors + custom.errors, custom.warnings, custom.crash)
    ensures var o := Then(Then(rules, custom), logic);
            custom.crash.None? ==> o == Outcome(rules.errors + custom.errors + logic.errors, custom.warnings + logic.warnings, logic.crash)
  {
    assert [] + custom.warnings == custom.warnings;
  }

  /** The execution-time check of `_validate_custom` as its loop runs. */
  method CheckTimes(config: Config) returns (o: Outcome)
    ensures o == TimesCheck(config)
  {
    var scheduler := SectionOf(config, "scheduler");
    if scheduler.Err? {
      return Crashed(scheduler.error);
    }
    var times := GetOrNull(scheduler.value, "execution_times");
    if !Truthy(times) {
      return Quiet;
    }
    match times {
      case List(items) =>
        o := CheckTimeItems(items);
      case Dict(m) =>
        o := CheckTimeItems(KeyNodes(SortedKeys(m.Keys)));
      case Leaf(Str(s)) =>
        o := Outcome(CharErrors(s), [], None);
      case _ =>
        o := Crashed(TypeError);
    }
  }

  /** The time loop: the items in order, stopping at the first that is not
      a string. */
  method CheckTimeItems(items: seq<Node>) returns (o: Outcome)
    ensures o == TimeItemsCheck(items)
  {
    var errors: seq<ValidationError> := [];
    var i := 0;
    while i < |items|
      invariant 0 <= i <= |items|
      invariant TimeItemsCheck(items[..i]) == Outcome(errors, [], None)
    {
      assert items[..i + 1][..i] == items[..i];
      var item := items[i];
      if !(item.Leaf? && item.v.Str?) {
        TimeItemsCrashOnward(items, i + 1);
        return Outcome(errors, [], Some(TypeError));
      }
      if !IsValidTime(item.v.s) {
        errors := errors + [BadTime(item.v.s)];
      }
      i := i + 1;
    }
    assert items[..|items|] == items;
    return Outcome(errors, [], None);
  }

  /** Every prefix of a found path is found. */
  lemma {:induction false} PrefixFound(n: Node, keys: seq<string>, j: nat)
    requires j <= |keys| && LookupPath(n, keys).Some?
    ensures LookupPath(n, keys[..j]).Some?
  {
    LookupPathAppend(n, keys[..j], keys[j..]);
    assert keys[..j] + keys[j..] == keys;
  }

  /** Once an item of the time list raises, the rest of the list is not seen. */
  lemma {:induction false} TimeItemsCrashOnward(items: seq<Node>, i: nat)
    requires i <= |items| && TimeItemsCheck(items[..i]).crash.Some?
    ensures TimeItemsCheck(items) == TimeItemsCheck(items[..i])
    decreases |items| - i
  {
    if i < |items| {
      assert items[..i + 1][..i] == items[..i];
      TimeItemsCrashOnward(items, i + 1);
    } else {
      assert items[..i] == items;
    }
  }
}
