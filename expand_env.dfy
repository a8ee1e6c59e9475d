/** `_expand_env`: environment-variable expansion applied to every string of a
    configuration value, leaving its structure as it is. */
module EnvExpansion {
  import opened JsonValue
  import opened PosixPath
  import opened Wrappers

  /** `_expand_env(obj)`: strings go through `os.path.expandvars`, lists and
      dicts are rebuilt element by element, other values are returned as
      they are. */
  function ExpandEnv(environ: map<string, string>, obj: Json): (r: Json)
    ensures obj.JNull? || obj.JBool? || obj.JNum? ==> r == obj
    ensures obj.JStr? <==> r.JStr?
    ensures obj.JArr? <==> r.JArr?
    ensures obj.JObj? <==> r.JObj?
    ensures obj.JArr? ==> |r.a| == |obj.a|
    ensures obj.JObj? ==> |r.o| == |obj.o| && forall i :: 0 <= i < |obj.o| ==> r.o[i].0 == obj.o[i].0
    decreases obj
  {
    match obj
    case JStr(s) => JStr(ExpandVars(environ, s))
    case JArr(a) => JArr(seq(|a|, i requires 0 <= i < |a| => ExpandEnv(environ, a[i])))
    case JObj(o) => JObj(seq(|o|, i requires 0 <= i < |o| => (o[i].0, ExpandEnv(environ, o[i].1))))
    case _ => obj
  }

  /** The structure of a value with the text of its strings erased. */
  function Skeleton(j: Json): Json
    decreases j
  {
    match j
    case JStr(_) => JStr("")
    case JArr(a) => JArr(seq(|a|, i requires 0 <= i < |a| => Skeleton(a[i])))
    case JObj(o) => JObj(seq(|o|, i requires 0 <= i < |o| => (o[i].0, Skeleton(o[i].1))))
    case _ => j
  }

  /** Concatenation of a sequence of sequences. */
  function Flatten<T>(xss: seq<seq<T>>): seq<T> {
    if xss == [] then [] else xss[0] + Flatten(xss[1..])
  }

  /** The strings of a value, in document order (depth first). Dict keys are
      not leaves. */
  function Leaves(j: Json): seq<string>
    decreases j
  {
    match j
    case JStr(s) => [s]
    case JArr(a) => Flatten(seq(|a|, i requires 0 <= i < |a| => Leaves(a[i])))
    case JObj(o) => Flatten(seq(|o|, i requires 0 <= i < |o| => Leaves(o[i].1)))
    case _ => []
  }

  /** Each string of `ss` expanded. */
  function ExpandAll(environ: map<string, string>, ss: seq<string>): seq<string> {
    seq(|ss|, i requires 0 <= i < |ss| => ExpandVars(environ, ss[i]))
  }

  /** Expansion changes no structure: only string contents may differ. */
  lemma {:induction false} ExpandEnvPreservesSkeleton(environ: map<string, string>, j: Json)
    ensures Skeleton(ExpandEnv(environ, j)) == Skeleton(j)
    decreases j
  {
    match j
    case JArr(a) =>
      var r := ExpandEnv(environ, j).a;
      forall i | 0 <= i < |a| ensures Skeleton(r[i]) == Skeleton(a[i]) {
        ExpandEnvPreservesSkeleton(environ, a[i]);
      }
    case JObj(o) =>
      var r := ExpandEnv(environ, j).o;
      forall i | 0 <= i < |o| ensures (r[i].0, Skeleton(r[i].1)) == (o[i].0, Skeleton(o[i].1)) {
        ExpandEnvPreservesSkeleton(environ, o[i].1);
      }
    case _ =>
  }

  lemma {:induction false} FlattenExpandAll(environ: map<string, string>, xss: seq<seq<string>>)
    ensures Flatten(seq(|xss|, i requires 0 <= i < |xss| => ExpandAll(environ, xss[i])))
         == ExpandAll(environ, Flatten(xss))
  {
    var m := seq(|xss|, i requires 0 <= i < |xss| => ExpandAll(environ, xss[i]));
    if xss != [] {
      FlattenExpandAll(environ, xss[1..]);
      assert m[1..] == seq(|xss[1..]|, i requires 0 <= i < |xss[1..]| => ExpandAll(environ, xss[1..][i]));
      assert ExpandAll(environ, xss[0] + Flatten(xss[1..]))
          == ExpandAll(environ, xss[0]) + ExpandAll(environ, Flatten(xss[1..]));
    }
  }

  /** The strings of the expanded value are the expansions of the original
      strings, one for one and in the same order. */
  lemma {:induction false} ExpandEnvLeaves(environ: map<string, string>, j: Json)
    ensures Leaves(ExpandEnv(environ, j)) == ExpandAll(environ, Leaves(j))
    decreases j
  {
    match j
    case JStr(s) =>
    case JArr(a) =>
      var r := ExpandEnv(environ, j).a;
      var xss := seq(|a|, i requires 0 <= i < |a| => Leaves(a[i]));
      forall i | 0 <= i < |a| ensures Leaves(r[i]) == ExpandAll(environ, xss[i]) {
        ExpandEnvLeaves(environ, a[i]);
      }
      assert seq(|r|, i requires 0 <= i < |r| => Leaves(r[i]))
          == seq(|xss|, i requires 0 <= i < |xss| => ExpandAll(environ, xss[i]));
      FlattenExpandAll(environ, xss);
    case JObj(o) =>
      var r := ExpandEnv(environ, j).o;
      var xss := seq(|o|, i requires 0 <= i < |o| => Leaves(o[i].1));
      forall i | 0 <= i < |o| ensures Leaves(r[i].1) == ExpandAll(environ, xss[i]) {
        ExpandEnvLeaves(environ, o[i].1);
      }
      assert seq(|r|, i requires 0 <= i < |r| => Leaves(r[i].1))
          == seq(|xss|, i requires 0 <= i < |xss| => ExpandAll(environ, xss[i]));
      FlattenExpandAll(environ, xss);
    case _ =>
  }

  /** With an empty environment the expansion is the identity. */
  lemma {:induction false} ExpandEnvEmptyEnvironIdentity(j: Json)
    ensures ExpandEnv(map[], j) == j
    decreases j
  {
    match j
    case JStr(s) => ExpandVarsEmptyEnvironIdentity(s);
    case JArr(a) =>
      forall i | 0 <= i < |a| ensures ExpandEnv(map[], a[i]) == a[i] {
        ExpandEnvEmptyEnvironIdentity(a[i]);
      }
      assert ExpandEnv(map[], j).a == a;
    case JObj(o) =>
      forall i | 0 <= i < |o| ensures ExpandEnv(map[], o[i].1) == o[i].1 {
        ExpandEnvEmptyEnvironIdentity(o[i].1);
      }
      assert ExpandEnv(map[], j).o == o;
    case _ =>
  }

  /** Looking a key up in an expanded dict gives the expansion of the value
      stored under it. */
  lemma {:induction false} GetExpanded(environ: map<string, string>, o: Object, k: string)
    ensures Get(ExpandEnv(environ, JObj(o)).o, k)
         == (match Get(o, k) case Some(v) => Some(ExpandEnv(environ, v)) case None => None)
    decreases |o|
  {
    var r := ExpandEnv(environ, JObj(o)).o;
    if o != [] {
      GetExpanded(environ, o[1..], k);
      assert r[1..] == ExpandEnv(environ, JObj(o[1..])).o;
    }
  }
}
