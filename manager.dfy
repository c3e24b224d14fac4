/** `src/config/manager.py`: the configuration manager's dotted `get` and
    `set`, the transactional `update`, the masking of `get_safe_dict`, and the
    module-level singleton behind `init_config` / `get_config_manager`. */
module Manager {
  import opened Common
  import opened Text
  import opened ConfigTree
  import Loader

  // ---------------------------------------------------------------------
  // The AppConfig model

  /** The fields of the `AppConfig` dataclass. */
  const AppConfigFields: set<string> := {
    "version", "environment", "debug", "human_simulator", "browser", "jd_account",
    "search", "vision", "database", "scheduler", "monitoring", "anti_detection", "price_alert"
  }

  /** `AppConfig(**d)` succeeds exactly when every top-level key names a
      field: the dataclass checks nothing else and defaults the rest. */
  predicate ModelAccepts(d: Config) {
    d.Keys <= AppConfigFields
  }

  datatype ConfigError = LoadFailed | ValidationFailed | NotInitialised

  // ---------------------------------------------------------------------
  // set

  /** The dictionary after `set` has walked `keys[:-1]`, replacing every
      missing or non-dictionary step by a fresh `{}`, and stored `v` under the
      last key. */
  function SetPath(d: Config, keys: seq<string>, v: Node): Config
    requires |keys| >= 1
    decreases |keys|
  {
    if |keys| == 1 then d[keys[0] := v]
    else
      var child := if keys[0] in d && d[keys[0]].Dict? then d[keys[0]].entries else map[];
      d[keys[0] := Dict(SetPath(child, keys[1..], v))]
  }

  /** Get after set: the stored value is found again under the same path. */
  lemma {:induction false} GetAfterSet(d: Config, keys: seq<string>, v: Node)
    requires |keys| >= 1
    ensures LookupPath(Dict(SetPath(d, keys, v)), keys) == Some(v)
    decreases |keys|
  {
    if |keys| > 1 {
      var child := if keys[0] in d && d[keys[0]].Dict? then d[keys[0]].entries else map[];
      GetAfterSet(child, keys[1..], v);
    }
  }

  /** Every proper prefix of the path is a dictionary afterwards, whatever
      stood there before. */
  lemma {:induction false} SetMakesDictionaries(d: Config, keys: seq<string>, v: Node, i: nat)
    requires 1 <= i < |keys|
    ensures LookupPath(Dict(SetPath(d, keys, v)), keys[..i]).Some?
    ensures LookupPath(Dict(SetPath(d, keys, v)), keys[..i]).value.Dict?
    decreases |keys|
  {
    var child := if keys[0] in d && d[keys[0]].Dict? then d[keys[0]].entries else map[];
    assert keys[..i][0] == keys[0];
    if i > 1 {
      SetMakesDictionaries(child, keys[1..], v, i - 1);
      assert keys[..i][1..] == keys[1..][..i - 1];
    } else {
      assert keys[..i][1..] == [];
    }
  }

  /** Nothing else changes: a path that parts from the set path keeps its
      value. */
  lemma {:induction false} SetLeavesOthers(d: Config, keys: seq<string>, v: Node, q: seq<string>)
    requires |keys| >= 1 && Diverge(keys, q)
    ensures LookupPath(Dict(SetPath(d, keys, v)), q) == LookupPath(Dict(d), q)
    decreases |keys|
  {
    var i :| 0 <= i < |keys| && i < |q| && keys[..i] == q[..i] && keys[i] != q[i];
    if i > 0 {
      assert q[0] == keys[0] by { assert q[..i][0] == keys[..i][0]; }
      var child := if keys[0] in d && d[keys[0]].Dict? then d[keys[0]].entries else map[];
      assert keys[1..][..i - 1] == q[1..][..i - 1] by {
        assert keys[1..][..i - 1] == keys[..i][1..];
        assert q[1..][..i - 1] == q[..i][1..];
      }
      assert Diverge(keys[1..], q[1..]) by {
        assert keys[1..][i - 1] == keys[i] && q[1..][i - 1] == q[i];
      }
      assert |keys| > 1;
      SetLeavesOthers(child, keys[1..], v, q[1..]);
      if !(keys[0] in d && d[keys[0]].Dict?) {
        assert LookupPath(Dict(child), q[1..]) == None by {
          assert |q[1..]| > 0 && q[1..][0] !in child;
        }
      }
    }
  }

  // ---------------------------------------------------------------------
  // get_safe_dict

  const Hidden := StrNode("***HIDDEN***")

  const SensitiveFields: seq<string> := [
    "browser.jd_account.password",
    "database.password",
    "monitoring.error_notification.telegram_token"
  ]

  /** Python's `key in current`: dictionary keys, substrings of a string,
      members of a list; any other value raises TypeError. */
  function PyIn(current: Node, key: string): Result<bool, Crash> {
    match current
    case Dict(m) => Ok(key in m)
    case List(xs) => Ok(StrNode(key) in xs)
    case Leaf(Str(s)) => Ok(Contains(s, key))
    case Leaf(_) => Err(TypeError)
  }

  /** The masking walk for one sensitive path: a key missing at the current
      level is skipped and the next key is tried at the same level; the last
      key, when present, has its value replaced.  Indexing or assigning into a
      value that is not a dictionary raises TypeError. */
  function Mask(current: Node, keys: seq<string>): Result<Node, Crash>
    decreases |keys|
  {
    if |keys| == 0 then Ok(current)
    else
      var k := keys[0];
      match PyIn(current, k)
      case Err(e) => Err(e)
      case Ok(false) => Mask(current, keys[1..])
      case Ok(true) =>
        if !current.Dict? then Err(TypeError)
        else if |keys| == 1 then Ok(Dict(current.entries[k := Hidden]))
        else
          match Mask(current.entries[k], keys[1..])
          case Err(e) => Err(e)
          case Ok(sub) => Ok(Dict(current.entries[k := sub]))
  }

  /** When every segment of a sensitive path exists, masking is `set` of the
      hidden marker at that path; so the leaf reads as hidden afterwards and
      every path that parts from it is untouched. */
  lemma {:induction false} MaskExistingPath(d: Config, keys: seq<string>)
    requires |keys| >= 1 && LookupPath(Dict(d), keys).Some?
    ensures Mask(Dict(d), keys) == Ok(Dict(SetPath(d, keys, Hidden)))
    decreases |keys|
  {
    if |keys| > 1 {
      var sub := d[keys[0]];
      assert LookupPath(sub, keys[1..]).Some?;
      assert sub.Dict?;
      MaskExistingPath(sub.entries, keys[1..]);
    }
  }

  /** The fold of the masking walks over the sensitive fields. */
  function MaskAll(d: Config, fields: seq<string>): Result<Config, Crash>
    decreases |fields|
  {
    if |fields| == 0 then Ok(d)
    else
      match MaskAll(d, fields[..|fields| - 1])
      case Err(e) => Err(e)
      case Ok(acc) =>
        match Mask(Dict(acc), Split(fields[|fields| - 1], '.'))
        case Err(e) => Err(e)
        case Ok(n) => if n.Dict? then Ok(n.entries) else Err(TypeError)
  }

  /** `get_safe_dict`: the configuration, masked when asked. */
  function SafeDict(d: Config, hideSensitive: bool): Result<Config, Crash> {
    if hideSensitive then MaskAll(d, SensitiveFields) else Ok(d)
  }

  /** Masking never fails on a dictionary at the top level when the path
      exists, and puts the marker on the leaf. */
  lemma MaskHidesLeaf(d: Config, field: string)
    requires LookupPath(Dict(d), Split(field, '.')).Some?
    ensures Mask(Dict(d), Split(field, '.')).Ok?
    ensures LookupPath(Mask(Dict(d), Split(field, '.')).value, Split(field, '.')) == Some(Hidden)
  {
    MaskExistingPath(d, Split(field, '.'));
    GetAfterSet(d, Split(field, '.'), Hidden);
  }

  /** The skip-at-the-same-level walk: with no `browser` section, the
      top-level `jd_account.password` is the one hidden for
      `browser.jd_account.password`. */
  lemma MaskSkipsMissingLevel(secret: Node)
    ensures var d := map["jd_account" := Dict(map["password" := secret])];
            Mask(Dict(d), ["browser", "jd_account", "password"]) ==
              Ok(Dict(map["jd_account" := Dict(map["password" := Hidden])]))
  {
    var d := map["jd_account" := Dict(map["password" := secret])];
    assert PyIn(Dict(d), "browser") == Ok(false);
    var rest := ["browser", "jd_account", "password"][1..];
    assert rest == ["jd_account", "password"];
    var inner := map["password" := secret];
    assert inner["password" := Hidden] == map["password" := Hidden];
    assert PyIn(Dict(inner), "password") == Ok(true);
    assert Mask(Dict(inner), ["password"]) == Ok(Dict(map["password" := Hidden]));
    assert PyIn(Dict(d), "jd_account") == Ok(true);
    assert ["jd_account", "password"][1..] == ["password"];
    assert Mask(Dict(d), rest) == Ok(Dict(d["jd_account" := Dict(map["password" := Hidden])]));
    assert d["jd_account" := Dict(map["password" := Hidden])] == map["jd_account" := Dict(map["password" := Hidden])];
  }

  /** Without `hide_sensitive` the dictionary is returned as it is. */
  lemma SafeDictUnmasked(d: Config)
    ensures SafeDict(d, false) == Ok(d)
  {
  }

  // ---------------------------------------------------------------------
  // The manager object

  class ConfigManager {
    /** `_dict_config`: the configuration dictionary. */
    var dictConfig: Config
    /** `_config`: what the `AppConfig` model was last built from. */
    var model: Config

    /** The end of `_load_config`: the loaded dictionary becomes both the
        dictionary and the model. */
    constructor(loaded: Config)
      requires ModelAccepts(loaded)
      ensures dictConfig == loaded && model == loaded
    {
      dictConfig := loaded;
      model := loaded;
    }

    predicate Valid()
      reads this
    {
      ModelAccepts(model)
    }

    /** The `dict_config` property: (a copy of) the dictionary. */
    method DictConfig() returns (d: Config)
      ensures d == dictConfig
    {
      d := dictConfig;
    }

    /** `get`: the value at the dotted path, or `default` as soon as a segment
        is missing or the walk meets a value that is not a dictionary. */
    method Get(key: string, default: Node) returns (value: Node)
      ensures Lookup(dictConfig, key).Some? ==> value == Lookup(dictConfig, key).value
      ensures Lookup(dictConfig, key).None? ==> value == default
    {
      var keys := Split(key, '.');
      value := Dict(dictConfig);
      var i := 0;
      while i < |keys|
        invariant 0 <= i <= |keys|
        invariant LookupPath(Dict(dictConfig), keys) == LookupPath(value, keys[i..])
      {
        if value.Dict? && keys[i] in value.entries {
          value := value.entries[keys[i]];
          assert keys[i..][1..] == keys[i + 1..];
          i := i + 1;
        } else {
          return default;
        }
      }
    }

    /** `set`: the walk changes the dictionary before the model is rebuilt,
        so a `False` result (the model refused a top-level key) still leaves
        the dictionary changed while the model stays as it was. */
    method Set(key: string, value: Node) returns (ok: bool)
      modifies this
      ensures dictConfig == SetPath(old(dictConfig), Split(key, '.'), value)
      ensures ok <==> ModelAccepts(dictConfig)
      ensures ok ==> model == dictConfig
      ensures !ok ==> model == old(model)
    {
      dictConfig := SetPath(dictConfig, Split(key, '.'), value);
      if ModelAccepts(dictConfig) {
        model := dictConfig;
        ok := true;
      } else {
        ok := false;
      }
    }

    /** `update`: merge, rebuild the model from the merged dictionary, and only
        then adopt it; a refused merge leaves both fields unchanged. */
    method Update(updates: Config) returns (ok: bool)
      modifies this
      ensures ok <==> ModelAccepts(Loader.Merged(old(dictConfig), updates))
      ensures ok ==> dictConfig == Loader.Merged(old(dictConfig), updates) && model == dictConfig
      ensures !ok ==> dictConfig == old(dictConfig) && model == old(model)
    {
      var merged := Loader.MergeConfigs(dictConfig, updates);
      if ModelAccepts(merged) {
        model := merged;
        dictConfig := merged;
        ok := true;
      } else {
        ok := false;
      }
    }

    /** `get_safe_dict`: mask each sensitive field of a copy of the model's
        dictionary in turn. */
    method GetSafeDict(hideSensitive: bool) returns (r: Result<Config, Crash>)
      ensures r == SafeDict(model, hideSensitive)
    {
      var configDict := model;
      if hideSensitive {
        var i := 0;
        while i < |SensitiveFields|
          invariant 0 <= i <= |SensitiveFields|
          invariant MaskAll(model, SensitiveFields[..i]) == Ok(configDict)
        {
          assert SensitiveFields[..i + 1][..i] == SensitiveFields[..i];
          var masked := Mask(Dict(configDict), Split(SensitiveFields[i], '.'));
          if masked.Err? || !masked.value.Dict? {
            MaskAllFailsOnward(model, SensitiveFields, i + 1);
            return if masked.Err? then Err(masked.error) else Err(TypeError);
          }
          configDict := masked.value.entries;
          i := i + 1;
        }
        assert SensitiveFields[..|SensitiveFields|] == SensitiveFields;
      }
      r := Ok(configDict);
    }
  }

  lemma {:induction false} MaskAllFailsOnward(d: Config, fields: seq<string>, i: nat)
    requires i <= |fields| && MaskAll(d, fields[..i]).Err?
    ensures MaskAll(d, fields) == MaskAll(d, fields[..i])
    decreases |fields| - i
  {
    if i < |fields| {
      assert fields[..i + 1][..i] == fields[..i];
      MaskAllFailsOnward(d, fields, i + 1);
    } else {
      assert fields[..i] == fields;
    }
  }

  /** A refused `update` never happens for updates within the model's
      fields on an accepted dictionary. */
  lemma UpdateWithinFields(d: Config, updates: Config)
    requires ModelAccepts(d) && ModelAccepts(updates)
    ensures ModelAccepts(Loader.Merged(d, updates))
  {
  }

  /** A `set` below an existing field is accepted; one under a new
      top-level key is refused. */
  lemma SetAcceptance(d: Config, keys: seq<string>, v: Node)
    requires |keys| >= 1 && ModelAccepts(d)
    ensures ModelAccepts(SetPath(d, keys, v)) <==> keys[0] in AppConfigFields
  {
    assert keys[0] in SetPath(d, keys, v);
  }

  // ---------------------------------------------------------------------
  // init_config / get_config_manager

  /** The module global `_global_config_manager`. */
  class ConfigRegistry {
    var current: ConfigManager?

    constructor()
      ensures current == null
    {
      current := null;
    }

    /** `init_config`: build a manager on the first successful call and hand
        back the same one afterwards.  `load` is what `_load_config` read and
        checked from the files; a failure there, or a dictionary the model
        refuses, raises and leaves the global unset. */
    method InitConfig(load: Result<Config, ConfigError>) returns (r: Result<ConfigManager, ConfigError>)
      modifies this
      ensures old(current) != null ==> r == Ok(old(current)) && current == old(current)
      ensures old(current) == null && load.Ok? && ModelAccepts(load.value) ==>
                r.Ok? && fresh(r.value) && current == r.value &&
                r.value.dictConfig == load.value && r.value.model == load.value
      ensures old(current) == null && load.Err? ==> r == Err(load.error) && current == null
      ensures old(current) == null && load.Ok? && !ModelAccepts(load.value) ==>
                r == Err(ValidationFailed) && current == null
    {
      if current == null {
        if load.Err? {
          return Err(load.error);
        }
        if !ModelAccepts(load.value) {
          return Err(ValidationFailed);
        }
        current := new ConfigManager(load.value);
      }
      r := Ok(current);
    }

    /** `get_config_manager`: the global manager, or ConfigError before
        initialisation. */
    method GetConfigManager() returns (r: Result<ConfigManager, ConfigError>)
      ensures current == null ==> r == Err(NotInitialised)
      ensures current != null ==> r == Ok(current)
    {
      if current == null {
        r := Err(NotInitialised);
      } else {
        r := Ok(current);
      }
    }
  }
}
