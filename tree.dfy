/** Configuration documents as the configuration layer sees them: the value a
    YAML/JSON/TOML loader returns, a tree of string-keyed dictionaries, lists
    and scalars.  Also the two dotted-path walks that several modules share. */
module ConfigTree {
  import opened Common
  import opened Text

  datatype Scalar = Null | Bool(b: bool) | Int(i: int) | Float(r: real) | Str(s: string)

  datatype Node = Leaf(v: Scalar) | Dict(entries: map<string, Node>) | List(items: seq<Node>)

  /** A top-level configuration dictionary. */
  type Config = map<string, Node>

  /** The built-in exceptions an ill-shaped document provokes. */
  datatype Crash = KeyError(key: string) | AttributeError | TypeError

  const None_ := Leaf(Null)

  function StrNode(s: string): Node { Leaf(Str(s)) }

  /** Python's truth value of a document value. */
  predicate Truthy(n: Node) {
    match n
    case Leaf(Null) => false
    case Leaf(Bool(b)) => b
    case Leaf(Int(i)) => i != 0
    case Leaf(Float(r)) => r != 0.0
    case Leaf(Str(s)) => s != ""
    case Dict(m) => m != map[]
    case List(xs) => xs != []
  }

  /** Follow `keys` through nested dictionaries; `None` as soon as a key is
      missing or the value reached is not a dictionary. */
  function LookupPath(n: Node, keys: seq<string>): (r: Option<Node>)
    ensures |keys| == 0 ==> r == Some(n)
    ensures |keys| > 0 && r.Some? ==> n.Dict? && keys[0] in n.entries
    decreases |keys|
  {
    if |keys| == 0 then Some(n)
    else if n.Dict? && keys[0] in n.entries then LookupPath(n.entries[keys[0]], keys[1..])
    else None
  }

  /** Looking up `a + b` is looking up `a`, then `b` from there. */
  lemma {:induction false} LookupPathAppend(n: Node, a: seq<string>, b: seq<string>)
    ensures LookupPath(n, a + b) ==
            (match LookupPath(n, a) case Some(m) => LookupPath(m, b) case None => None)
    decreases |a|
  {
    if |a| > 0 {
      assert (a + b)[0] == a[0];
      assert (a + b)[1..] == a[1..] + b;
      if n.Dict? && a[0] in n.entries {
        LookupPathAppend(n.entries[a[0]], a[1..], b);
      }
    } else {
      assert a + b == b;
    }
  }

  /** The value at a dotted key such as `"human_simulator.min_delay"`. */
  function Lookup(c: Config, dotted: string): Option<Node> {
    LookupPath(Dict(c), Split(dotted, '.'))
  }

  /** `d.get(key)` on a dictionary: the missing key reads as `None`. */
  function GetOrNull(d: Config, key: string): Node {
    if key in d then d[key] else None_
  }

  /** `config.get(key, {})` followed by a further `.get`: the first value must
      be a dictionary (a present `None`, list or scalar raises AttributeError). */
  function SectionOf(c: Config, key: string): Result<Config, Crash> {
    if key !in c then Ok(map[])
    else if c[key].Dict? then Ok(c[key].entries)
    else Err(AttributeError)
  }

  /** Whether `keys[0] .. keys[i-1]` and `q[0] .. q[i-1]` agree and the two
      paths then part: neither is a prefix of the other. */
  predicate Diverge(keys: seq<string>, q: seq<string>) {
    exists i | 0 <= i < |keys| && i < |q| :: keys[..i] == q[..i] && keys[i] != q[i]
  }
}
