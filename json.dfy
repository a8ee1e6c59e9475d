/** The value tree that `json.loads` produces, and the Python dict operations
    the configuration code applies to it. */
module JsonValue {
  import opened Wrappers

  /** A parsed JSON value. An object keeps its members in document order, as a
      Python dict keeps insertion order. Numbers are reals: no check of the
      configuration code distinguishes an int from a float. */
  datatype Json =
    | JNull
    | JBool(b: bool)
    | JNum(n: real)
    | JStr(s: string)
    | JArr(a: seq<Json>)
    | JObj(o: seq<(string, Json)>)

  /** The members of a JSON object (a Python dict), in order. */
  type Object = seq<(string, Json)>

  /** Python truthiness of a parsed value: `null`, `false`, zero, the empty
      string, the empty list and the empty dict are falsy. */
  predicate Truthy(j: Json) {
    match j
    case JNull => false
    case JBool(b) => b
    case JNum(n) => n != 0.0
    case JStr(s) => s != ""
    case JArr(a) => a != []
    case JObj(o) => o != []
  }

  /** The keys of a dict, in order. */
  function KeysOf(o: Object): (ks: seq<string>)
    ensures |ks| == |o|
  {
    if o == [] then [] else [o[0].0] + KeysOf(o[1..])
  }

  /** `k in d`. */
  predicate HasKey(o: Object, k: string) {
    k in KeysOf(o)
  }

  /** Python dicts never hold a key twice. */
  predicate UniqueKeys(o: Object) {
    forall i, j :: 0 <= i < j < |o| ==> o[i].0 != o[j].0
  }

  /** `d.get(k)`: the value stored under `k`, or None when `k` is absent. */
  function Get(o: Object, k: string): (r: Option<Json>)
    ensures r.Some? <==> HasKey(o, k)
  {
    if o == [] then None
    else if o[0].0 == k then Some(o[0].1)
    else Get(o[1..], k)
  }

  /** The lookup returns the value of the first member with key `k`. */
  lemma {:induction false} GetFirstMatch(o: Object, k: string)
    requires HasKey(o, k)
    ensures exists i :: 0 <= i < |o| && o[i] == (k, Get(o, k).value) && forall j :: 0 <= j < i ==> o[j].0 != k
  {
    if o[0].0 != k {
      GetFirstMatch(o[1..], k);
      var i :| 0 <= i < |o[1..]| && o[1..][i] == (k, Get(o[1..], k).value) && forall j :: 0 <= j < i ==> o[1..][j].0 != k;
      assert o[i + 1] == (k, Get(o, k).value);
      forall j | 0 <= j < i + 1 ensures o[j].0 != k {
        if j > 0 { assert o[j] == o[1..][j - 1]; }
      }
    }
  }

  /** The `i`-th key is the key of the `i`-th member. */
  lemma {:induction false} KeysOfIndex(o: Object, i: nat)
    requires i < |o|
    ensures KeysOf(o)[i] == o[i].0
  {
    if i > 0 {
      KeysOfIndex(o[1..], i - 1);
    }
  }

  /** In a dict without repeated keys, `d.get(k)` is the value paired with `k`. */
  lemma UniqueKeysGet(o: Object, i: nat)
    requires UniqueKeys(o) && i < |o|
    ensures Get(o, o[i].0) == Some(o[i].1)
  {
    KeysOfIndex(o, i);
    GetFirstMatch(o, o[i].0);
    var m :| 0 <= m < |o| && o[m] == (o[i].0, Get(o, o[i].0).value) && forall j :: 0 <= j < m ==> o[j].0 != o[i].0;
  }

  /** Looking up past a first member with another key. */
  lemma GetPastHead(p: (string, Json), rest: Object, k: string)
    requires p.0 != k
    ensures Get([p] + rest, k) == Get(rest, k)
  {
    assert ([p] + rest)[1..] == rest;
  }

  /** `d.get(k, default)`. */
  function GetOr(o: Object, k: string, default: Json): (r: Json)
    ensures HasKey(o, k) ==> Get(o, k) == Some(r)
    ensures !HasKey(o, k) ==> r == default
  {
    match Get(o, k)
    case Some(v) => v
    case None => default
  }

  /** `d[k] = v`: an existing key keeps its position, a new key goes last. */
  function SetItem(o: Object, k: string, v: Json): (r: Object)
    ensures !HasKey(o, k) ==> r == o + [(k, v)]
    ensures HasKey(o, k) ==> KeysOf(r) == KeysOf(o)
    ensures Get(r, k) == Some(v)
    ensures forall k' :: k' != k ==> Get(r, k') == Get(o, k')
  {
    if o == [] then [(k, v)]
    else if o[0].0 == k then [(k, v)] + o[1..]
    else [o[0]] + SetItem(o[1..], k, v)
  }

  /** The dict without key `k`, used to state that a key does not affect the
      verdict on an entry. */
  function Remove(o: Object, k: string): (r: Object)
    ensures Get(r, k) == None
    ensures forall k' :: k' != k ==> Get(r, k') == Get(o, k')
  {
    if o == [] then []
    else if o[0].0 == k then Remove(o[1..], k)
    else [o[0]] + Remove(o[1..], k)
  }

  /** Python's `t in s` for a set of strings `s`: a list or a dict is
      unhashable and makes the test raise TypeError (None here); any other
      non-string value is simply not a member. */
  function InStringSet(t: Json, s: set<string>): (r: Option<bool>)
    ensures r.None? <==> t.JArr? || t.JObj?
    ensures r == Some(true) <==> t.JStr? && t.s in s
  {
    match t
    case JArr(_) => None
    case JObj(_) => None
    case JStr(x) => Some(x in s)
    case _ => Some(false)
  }
}
