/** `os.path.expandvars` as the POSIX implementation defines it: every
    `$name` or `${name}` whose name is set in the environment is replaced by
    its value, every other reference is kept as written, and substituted text
    is never scanned again. A reference is what the pattern
    `\$(\w+|\{[^}]*\})` (ASCII word characters) matches. */
module PosixPath {
  import opened Wrappers

  /** `\w` under the ASCII flag. */
  predicate IsWordChar(c: char) {
    ('a' <= c <= 'z') || ('A' <= c <= 'Z') || ('0' <= c <= '9') || c == '_'
  }

  /** Length of the longest prefix of `s` made of word characters. */
  function WordPrefixLength(s: string): (n: nat)
    ensures n <= |s|
    ensures forall i :: 0 <= i < n ==> IsWordChar(s[i])
    ensures n < |s| ==> !IsWordChar(s[n])
  {
    if s != [] && IsWordChar(s[0]) then 1 + WordPrefixLength(s[1..]) else 0
  }

  /** Position of the first `c` in `s`. */
  function IndexOf(s: string, c: char): (r: Option<nat>)
    ensures r.None? <==> c !in s
    ensures r.Some? ==> r.value < |s| && s[r.value] == c && c !in s[..r.value]
  {
    if s == [] then None
    else if s[0] == c then Some(0)
    else match IndexOf(s[1..], c)
      case None => None
      case Some(k) => assert s[..k + 1] == [s[0]] + s[1..][..k]; Some(k + 1)
  }

  /** A variable reference: the variable's name and the length of the text
      that refers to it. */
  datatype Ref = Ref(name: string, len: nat)

  /** The reference the pattern matches at the start of `s` (which starts with
      `$`), if any: `\w+` is tried before the braced form. */
  function MatchRef(s: string): (r: Option<Ref>)
    requires |s| > 0 && s[0] == '$'
    ensures r.Some? ==> 2 <= r.value.len <= |s|
    ensures r.Some? && IsWordChar(s[1]) ==>
              s[..r.value.len] == "$" + r.value.name
              && r.value.name != []
              && (forall i :: 0 <= i < |r.value.name| ==> IsWordChar(r.value.name[i]))
              && (r.value.len == |s| || !IsWordChar(s[r.value.len]))
    ensures r.Some? && !IsWordChar(s[1]) ==>
              s[..r.value.len] == "${" + r.value.name + "}" && '}' !in r.value.name
    ensures r.None? <==> |s| == 1 || (!IsWordChar(s[1]) && (s[1] != '{' || '}' !in s[2..]))
  {
    var w := WordPrefixLength(s[1..]);
    if w > 0 then
      Some(Ref(s[1..1 + w], 1 + w))
    else if |s| > 1 && s[1] == '{' then
      match IndexOf(s[2..], '}')
      case Some(k) => Some(Ref(s[2..2 + k], 3 + k))
      case None => None
    else None
  }

  /** The substitution loop of expandvars: text outside references and
      references to unset variables are copied, references to set variables
      are replaced by their values, and scanning resumes after the reference. */
  function Substitute(environ: map<string, string>, s: string): (r: string)
    ensures '$' !in s ==> r == s
    decreases |s|
  {
    if s == [] then []
    else if s[0] != '$' then [s[0]] + Substitute(environ, s[1..])
    else match MatchRef(s)
      case None => [s[0]] + Substitute(environ, s[1..])
      case Some(ref) =>
        (if ref.name in environ then environ[ref.name] else s[..ref.len])
        + Substitute(environ, s[ref.len..])
  }

  /** `os.path.expandvars(s)` against the environment `environ`. */
  function ExpandVars(environ: map<string, string>, s: string): string {
    if '$' !in s then s else Substitute(environ, s)
  }

  /** The reference starting at the `$` that begins `t`, if any, names a
      variable that `environ` does not set. */
  predicate RefUnset(environ: map<string, string>, t: string)
    requires |t| > 0 && t[0] == '$'
  {
    match MatchRef(t)
    case None => true
    case Some(ref) => ref.name !in environ
  }

  /** No reference in `s`, at whatever `$` it starts, names a set variable. */
  predicate ReferencesUnset(environ: map<string, string>, s: string) {
    forall i :: 0 <= i < |s| && s[i] == '$' ==> RefUnset(environ, s[i..])
  }

  /** A suffix of a string whose references are unset has unset references. */
  lemma ReferencesUnsetSuffix(environ: map<string, string>, s: string, n: nat)
    requires ReferencesUnset(environ, s) && n <= |s|
    ensures ReferencesUnset(environ, s[n..])
  {
    forall i | 0 <= i < |s[n..]| && s[n..][i] == '$' ensures RefUnset(environ, s[n..][i..]) {
      assert s[n..][i..] == s[n + i..];
    }
  }

  /** A reference to a variable that is not set is kept verbatim: when no
      reference names a set variable, the substitution changes nothing. */
  lemma {:induction false} SubstituteUnsetKeepsText(environ: map<string, string>, s: string)
    requires ReferencesUnset(environ, s)
    ensures Substitute(environ, s) == s
    decreases |s|
  {
    if s == [] {
    } else if s[0] != '$' {
      ReferencesUnsetSuffix(environ, s, 1);
      SubstituteUnsetKeepsText(environ, s[1..]);
      assert s == [s[0]] + s[1..];
    } else {
      assert s[0..] == s;
      match MatchRef(s)
      case None =>
        ReferencesUnsetSuffix(environ, s, 1);
        SubstituteUnsetKeepsText(environ, s[1..]);
        assert s == [s[0]] + s[1..];
      case Some(ref) =>
        assert ref.name !in environ;
        ReferencesUnsetSuffix(environ, s, ref.len);
        SubstituteUnsetKeepsText(environ, s[ref.len..]);
        assert s == s[..ref.len] + s[ref.len..];
    }
  }

  /** `expandvars` returns a string unchanged when none of its references
      names a set variable. */
  lemma ExpandVarsUnsetKeepsText(environ: map<string, string>, s: string)
    requires ReferencesUnset(environ, s)
    ensures ExpandVars(environ, s) == s
  {
    SubstituteUnsetKeepsText(environ, s);
  }

  /** An empty environment leaves every string unchanged. */
  lemma ExpandVarsEmptyEnvironIdentity(s: string)
    ensures ExpandVars(map[], s) == s
  {
    ExpandVarsUnsetKeepsText(map[], s);
  }

  /** `${A}/x` with `A=1` expands to `1/x`. */
  lemma ExpandVarsBracedExample()
    ensures ExpandVars(map["A" := "1"], "${A}/x") == "1/x"
  {
    var s := "${A}/x";
    assert s[1..] == "{A}/x";
    assert WordPrefixLength(s[1..]) == 0;
    assert s[2..] == "A}/x";
    assert IndexOf(s[2..], '}') == Some(1) by {
      assert s[2..][1..] == "}/x";
    }
    assert s[2..3] == "A";
    assert MatchRef(s) == Some(Ref("A", 4));
    assert s[4..] == "/x";
    assert Substitute(map["A" := "1"], "/x") == "/x";
    assert Substitute(map["A" := "1"], s) == "1" + Substitute(map["A" := "1"], s[4..]);
  }

  /** A reference to an unset variable stays as written: with only `A=1`
      set, `$HOME/x` is returned unchanged. */
  lemma ExpandVarsUnsetExample()
    ensures ExpandVars(map["A" := "1"], "$HOME/x") == "$HOME/x"
  {
    var s := "$HOME/x";
    assert s[1..] == "HOME/x";
    assert WordPrefixLength(s[1..]) == 4 by {
      var u := s[1..];
      assert WordPrefixLength(u[4..]) == 0;
      assert u[3..][1..] == u[4..];
      assert WordPrefixLength(u[3..]) == 1;
      assert u[2..][1..] == u[3..];
      assert WordPrefixLength(u[2..]) == 2;
      assert u[1..][1..] == u[2..];
      assert WordPrefixLength(u[1..]) == 3;
    }
    assert s[1..5] == "HOME";
    assert MatchRef(s) == Some(Ref("HOME", 5));
    assert s[5..] == "/x";
    assert '$' !in s[5..];
    assert s == s[..5] + s[5..];
  }

  /** Substituted text is not expanded again: with `A=$B` and `B=x`, `$A`
      becomes `$B`, not `x`. */
  lemma ExpandVarsSinglePass()
    ensures ExpandVars(map["A" := "$B", "B" := "x"], "$A") == "$B"
  {
    var s := "$A";
    assert s[1..] == "A";
    assert WordPrefixLength(s[1..]) == 1 by {
      assert s[1..][1..] == [];
    }
    assert s[1..2] == "A";
    assert MatchRef(s) == Some(Ref("A", 2));
  }
}
