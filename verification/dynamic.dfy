/**
 * The bridge's dynamically typed values (`Dynamic`, `ReadableMap`,
 * `ReadableArray`) as they reach the view manager. A readable map is an
 * association list whose order is the map's key-iteration order and whose
 * keys are pairwise distinct.
 */
module Dynamic {
  import opened Wrappers

  /** The `ReadableType` a dynamic value reports. */
  datatype ReadableType = NullType | BooleanType | NumberType | StringType | MapType | ArrayType

  datatype Dyn =
    | Null
    | Bool(b: bool)
    | Num(n: real)
    | Str(s: string)
    | MapV(entries: seq<(string, Dyn)>)
    | ArrayV(items: seq<Dyn>)

  function TypeOf(d: Dyn): ReadableType
  {
    match d
    case Null => NullType
    case Bool(_) => BooleanType
    case Num(_) => NumberType
    case Str(_) => StringType
    case MapV(_) => MapType
    case ArrayV(_) => ArrayType
  }

  predicate KeysDistinct(m: seq<(string, Dyn)>)
  {
    forall i, j :: 0 <= i < j < |m| ==> m[i].0 != m[j].0
  }

  /** A `ReadableMap`: entries in key-iteration order, no key twice. */
  type ReadableMap = m: seq<(string, Dyn)> | KeysDistinct(m) witness []

  predicate HasKey(m: seq<(string, Dyn)>, key: string)
  {
    exists i :: 0 <= i < |m| && m[i].0 == key
  }

  /** `getDynamic(key)`: the value stored under `key`, or None when the key is absent. */
  function Get(m: seq<(string, Dyn)>, key: string): (r: Option<Dyn>)
    ensures r.Some? <==> HasKey(m, key)
    ensures r.Some? ==> (key, r.value) in m
  {
    if |m| == 0 then None
    else if m[0].0 == key then Some(m[0].1)
    else
      var rest := Get(m[1..], key);
      assert HasKey(m, key) ==> HasKey(m[1..], key) by {
        if HasKey(m, key) {
          var i :| 0 <= i < |m| && m[i].0 == key;
          assert m[1..][i - 1].0 == key;
        }
      }
      assert rest.Some? ==> (key, rest.value) in m by {
        if rest.Some? {
          var j :| 0 <= j < |m[1..]| && m[1..][j] == (key, rest.value);
          assert m[j + 1] == (key, rest.value);
        }
      }
      rest
  }

  /** In a map with distinct keys, looking up the key of entry `i` yields the value of entry `i`. */
  lemma {:induction false} GetAt(m: ReadableMap, i: nat)
    requires i < |m|
    ensures Get(m, m[i].0) == Some(m[i].1)
  {
    if i > 0 {
      var tail: ReadableMap := m[1..];
      assert m[0].0 != m[i].0;
      assert tail[i - 1] == m[i];
      GetAt(tail, i - 1);
    }
  }
}
