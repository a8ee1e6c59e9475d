/** `build_server`: the choice of server class and the parameters it is given
    for one parsed entry. The SDK classes are represented by a tag. */
module McpServerBuild {
  import opened Wrappers
  import opened JsonValue
  import opened PosixPath
  import opened EnvExpansion
  import opened McpConfig

  /** The server class instantiated: `MCPServerStdio`, `MCPServerSse` or
      `MCPServerStreamableHttp`. */
  datatype Transport = Stdio | Sse | StreamableHttp

  /** A constructed server: its class, name, connection parameters and client
      session timeout in seconds. */
  datatype Server = Server(transport: Transport, name: string, params: Object, sessionTimeout: Json)

  /** A KeyError on `cfg[key]`, or the TypeError of `timedelta(seconds=...)`
      on a non-numeric timeout. */
  datatype BuildError = MissingKey(key: string) | TimeoutNotNumeric

  /** The session timeout used when the entry has none. */
  const DefaultSessionTimeout: Json := JNum(30.0)

  /** `timedelta(seconds=t)` as a number of seconds: numbers are accepted, a
      boolean counts as 0 or 1, anything else raises TypeError. */
  function Seconds(t: Json): (r: Option<real>)
    ensures r.Some? <==> t.JNum? || t.JBool?
    ensures t.JNum? ==> r == Some(t.n)
    ensures t.JBool? ==> r == Some(if t.b then 1.0 else 0.0)
  {
    match t
    case JNum(n) => Some(n)
    case JBool(b) => Some(if b then 1.0 else 0.0)
    case _ => None
  }

  /** `if cfg.get(k): params[k] = cfg[k]`. */
  function AddIfTruthy(params: Object, cfg: Object, k: string): Object {
    if Truthy(GetOr(cfg, k, JNull)) then SetItem(params, k, GetOr(cfg, k, JNull)) else params
  }

  /** The parameters of a stdio server. */
  function StdioParameters(cfg: Object): Object {
    var base := [("command", GetOr(cfg, "command", JNull))];
    AddIfTruthy(AddIfTruthy(AddIfTruthy(base, cfg, "args"), cfg, "env"), cfg, "cwd")
  }

  /** The parameters shared by the two HTTP-family servers. */
  function UrlParameters(cfg: Object): Object {
    AddIfTruthy([("url", GetOr(cfg, "url", JNull))], cfg, "headers")
  }

  /** `build_server(name, cfg)`. */
  function BuildServer(name: string, cfg: Object): Result<Server, BuildError> {
    var sessionTimeout := GetOr(cfg, "timeout", DefaultSessionTimeout);
    if HasKey(cfg, "command") then
      Success(Server(Stdio, name, StdioParameters(cfg), sessionTimeout))
    else if !HasKey(cfg, "type") then Failure(MissingKey("type"))
    else if !HasKey(cfg, "url") then Failure(MissingKey("url"))
    else
      var timeout := GetOr(cfg, "timeout", JNull);
      if GetOr(cfg, "type", JNull) == JStr("sse") then
        Success(Server(Sse, name, AddIfTruthy(UrlParameters(cfg), cfg, "timeout"), sessionTimeout))
      else if !Truthy(timeout) then
        Success(Server(StreamableHttp, name, UrlParameters(cfg), sessionTimeout))
      else
        match Seconds(timeout)
        case None => Failure(TimeoutNotNumeric)
        case Some(sec) =>
          Success(Server(StreamableHttp, name, SetItem(UrlParameters(cfg), "timeout", JNum(sec)), sessionTimeout))
  }

  /** What `AddIfTruthy` does to a lookup. */
  lemma AddIfTruthyGet(params: Object, cfg: Object, k: string, k': string)
    ensures Get(AddIfTruthy(params, cfg, k), k')
         == if k' == k && Truthy(GetOr(cfg, k, JNull)) then Get(cfg, k) else Get(params, k')
  {
  }

  /** The dispatch: `command` gives a stdio server; otherwise the type "sse"
      gives an SSE server and any other type a streamable-HTTP server. The
      name is passed through and the session timeout is `cfg["timeout"]` when
      the key is present, whatever its value (0 included), and 30 otherwise. */
  lemma BuildServerDispatch(name: string, cfg: Object)
    ensures HasKey(cfg, "command") ==>
              BuildServer(name, cfg).Success? && BuildServer(name, cfg).value.transport == Stdio
    ensures !HasKey(cfg, "command") && BuildServer(name, cfg).Success? ==>
              (BuildServer(name, cfg).value.transport == Sse <==> GetOr(cfg, "type", JNull) == JStr("sse"))
              && BuildServer(name, cfg).value.transport != Stdio
    ensures BuildServer(name, cfg).Success? ==>
              BuildServer(name, cfg).value.name == name
              && BuildServer(name, cfg).value.sessionTimeout
                 == (if HasKey(cfg, "timeout") then GetOr(cfg, "timeout", JNull) else JNum(30.0))
  {
  }

  /** `build_server` fails exactly on a URL entry that lacks `type` or `url`
      (KeyError, `type` first) or on a streamable-HTTP entry whose truthy
      timeout is not a number (TypeError). */
  lemma BuildServerFailure(name: string, cfg: Object)
    ensures BuildServer(name, cfg).Failure?
        <==> !HasKey(cfg, "command")
             && (!HasKey(cfg, "type") || !HasKey(cfg, "url")
                 || (GetOr(cfg, "type", JNull) != JStr("sse")
                     && Truthy(GetOr(cfg, "timeout", JNull)) && Seconds(GetOr(cfg, "timeout", JNull)).None?))
    ensures BuildServer(name, cfg).Failure? ==>
              BuildServer(name, cfg).error
              == if !HasKey(cfg, "type") then MissingKey("type")
                 else if !HasKey(cfg, "url") then MissingKey("url")
                 else TimeoutNotNumeric
  {
  }

  /** Which parameters each server class receives. */
  lemma BuildServerParameters(name: string, cfg: Object)
    requires BuildServer(name, cfg).Success?
    ensures var s := BuildServer(name, cfg).value;
      && (s.transport == Stdio ==> s.params == StdioParameters(cfg))
      && (s.transport == Sse ==> s.params == AddIfTruthy(UrlParameters(cfg), cfg, "timeout"))
      && (s.transport == StreamableHttp ==>
            if Truthy(GetOr(cfg, "timeout", JNull))
            then Seconds(GetOr(cfg, "timeout", JNull)).Some?
                 && s.params == SetItem(UrlParameters(cfg), "timeout", JNum(Seconds(GetOr(cfg, "timeout", JNull)).value))
            else s.params == UrlParameters(cfg))
  {
  }

  /** Stdio parameters: `command` first, plus `args`, `env` and `cwd` each
      exactly when truthy, every value copied from the entry. */
  lemma StdioParametersContents(cfg: Object)
    requires HasKey(cfg, "command")
    ensures var p := StdioParameters(cfg);
      && KeysOf(p)[0] == "command"
      && (forall k :: HasKey(p, k) <==> k == "command" || ((k == "args" || k == "env" || k == "cwd") && Truthy(GetOr(cfg, k, JNull))))
      && (forall k :: HasKey(p, k) ==> Get(p, k) == Get(cfg, k))
  {
    var base := [("command", GetOr(cfg, "command", JNull))];
    var p1 := AddIfTruthy(base, cfg, "args");
    var p2 := AddIfTruthy(p1, cfg, "env");
    var p := AddIfTruthy(p2, cfg, "cwd");
    forall k ensures Get(p, k) == (if k == "command" || ((k == "args" || k == "env" || k == "cwd") && Truthy(GetOr(cfg, k, JNull))) then Get(cfg, k) else None) {
      AddIfTruthyGet(p2, cfg, "cwd", k);
      AddIfTruthyGet(p1, cfg, "env", k);
      AddIfTruthyGet(base, cfg, "args", k);
      assert base[1..] == [];
    }
    assert KeysOf(p1)[0] == "command";
    assert KeysOf(p2)[0] == "command";
    assert KeysOf(p)[0] == "command" by {
      if Truthy(GetOr(cfg, "cwd", JNull)) && !HasKey(p2, "cwd") {
        assert p == p2 + [("cwd", GetOr(cfg, "cwd", JNull))];
        assert p[0] == p2[0];
      }
    }
  }

  /** HTTP-family parameters: `url`, plus `headers` exactly when truthy, both
      copied from the entry. */
  lemma UrlParametersContents(cfg: Object)
    requires HasKey(cfg, "url")
    ensures forall k :: Get(UrlParameters(cfg), k)
                     == if k == "url" || (k == "headers" && Truthy(GetOr(cfg, k, JNull))) then Get(cfg, k) else None
  {
    var base := [("url", GetOr(cfg, "url", JNull))];
    forall k ensures Get(UrlParameters(cfg), k)
                  == if k == "url" || (k == "headers" && Truthy(GetOr(cfg, k, JNull))) then Get(cfg, k) else None {
      AddIfTruthyGet(base, cfg, "headers", k);
      assert base[1..] == [];
    }
  }

  /** SSE parameters: `url`, plus `headers` and `timeout` each exactly when
      truthy, every value copied from the entry. */
  lemma SseParametersContents(cfg: Object)
    requires HasKey(cfg, "url")
    ensures var p := AddIfTruthy(UrlParameters(cfg), cfg, "timeout");
      && (forall k :: HasKey(p, k) <==> k == "url" || ((k == "headers" || k == "timeout") && Truthy(GetOr(cfg, k, JNull))))
      && (forall k :: HasKey(p, k) ==> Get(p, k) == Get(cfg, k))
  {
    UrlParametersContents(cfg);
    forall k ensures Get(AddIfTruthy(UrlParameters(cfg), cfg, "timeout"), k)
                  == if k == "url" || ((k == "headers" || k == "timeout") && Truthy(GetOr(cfg, k, JNull))) then Get(cfg, k) else None {
      AddIfTruthyGet(UrlParameters(cfg), cfg, "timeout", k);
    }
  }

  /** Streamable-HTTP parameters with a timeout: `url`, `headers` when truthy,
      and the timeout as its number of seconds. */
  lemma StreamableHttpParametersContents(cfg: Object, sec: real)
    requires HasKey(cfg, "url")
    ensures var p := SetItem(UrlParameters(cfg), "timeout", JNum(sec));
      && (forall k :: HasKey(p, k) <==> k == "url" || k == "timeout" || (k == "headers" && Truthy(GetOr(cfg, k, JNull))))
      && (forall k :: HasKey(p, k) && k != "timeout" ==> Get(p, k) == Get(cfg, k))
      && Get(p, "timeout") == Some(JNum(sec))
  {
    UrlParametersContents(cfg);
  }

  // ----- Building the servers that the parser returns -----

  /** The HTTP-family type names contain no `$`, so expansion leaves them as
      they are. */
  lemma HttpTypesSurviveExpansion(environ: map<string, string>, t: string)
    requires t in HttpTypes
    ensures ExpandVars(environ, t) == t
  {
    assert t == "sse" || t == "stream" || t == "http" || t == "streamable-http";
    assert forall i :: 0 <= i < |t| ==> t[i] != '$';
  }

  /** Every entry the parser keeps can be built: `build_server` on its
      expansion never raises KeyError and picks stdio exactly for a `command`
      entry and SSE exactly for type "sse". It fails, with TypeError, exactly
      on a streamable-HTTP entry whose timeout is, after expansion, a
      non-empty string, list or dict; the timeout as written is then a
      string, list or dict. */
  lemma BuildKeptEntry(environ: map<string, string>, name: string, cfg: Json)
    requires EntryVerdict(name, cfg) == Keep
    ensures ExpandEnv(environ, cfg).JObj?
    ensures var r := BuildServer(name, ExpandEnv(environ, cfg).o);
            var timeout := GetOr(ExpandEnv(environ, cfg).o, "timeout", JNull);
      && (r.Success? ==>
            && (r.value.transport == Stdio <==> HasKey(cfg.o, "command"))
            && (r.value.transport == Sse <==> !HasKey(cfg.o, "command") && ServerType(cfg.o) == JStr("sse")))
      && (r.Failure? <==>
            && !HasKey(cfg.o, "command") && ServerType(cfg.o) != JStr("sse")
            && Truthy(timeout) && (timeout.JStr? || timeout.JArr? || timeout.JObj?))
      && (r.Failure? ==>
            && r.error == TimeoutNotNumeric
            && (GetOr(cfg.o, "timeout", JNull).JStr? || GetOr(cfg.o, "timeout", JNull).JArr?
                || GetOr(cfg.o, "timeout", JNull).JObj?))
  {
    EntryKeptIff(name, cfg);
    var o := cfg.o;
    var x := ExpandEnv(environ, cfg).o;
    GetExpanded(environ, o, "command");
    GetExpanded(environ, o, "type");
    GetExpanded(environ, o, "url");
    GetExpanded(environ, o, "timeout");
    BuildServerDispatch(name, x);
    BuildServerFailure(name, x);
    if !HasKey(o, "command") {
      assert UrlValid(o);
      var t := ServerType(o).s;
      HttpTypesSurviveExpansion(environ, t);
      assert GetOr(x, "type", JNull) == ServerType(o);
      var timeout := GetOr(o, "timeout", JNull);
      if HasKey(o, "timeout") && (timeout.JNull? || timeout.JBool? || timeout.JNum?) {
        assert GetOr(x, "timeout", JNull) == timeout;
      }
    }
  }

  /** `main` builds one server per parsed entry: for each entry of a
      successful parse there is a kept input entry of the same name whose
      expansion it is, and building it behaves as `BuildKeptEntry` says. */
  lemma BuildParsedServers(environ: map<string, string>, root: Json, i: nat)
    requires TopLevelOk(root) && UniqueKeys(ServerEntries(root))
    requires Parse(environ, root).Success? && i < |Parse(environ, root).value|
    ensures exists j :: 0 <= j < |ServerEntries(root)| && VerdictAt(ServerEntries(root), j) == Keep
                        && Parse(environ, root).value[i]
                           == (ServerEntries(root)[j].0, ExpandEnv(environ, ServerEntries(root)[j].1))
  {
    var entries := ServerEntries(root);
    var steps := Steps(environ, entries);
    ParseResult(environ, root);
    StoredElement(steps, i);
    var j :| 0 <= j < |steps| && steps[j].Store? && Stored(steps)[i] == (steps[j].name, steps[j].value);
    StepAt(environ, entries, j);
  }

  /** Each pair of `Stored(steps)` comes from a stored step. */
  lemma {:induction false} StoredElement(steps: seq<Step>, i: nat)
    requires i < |Stored(steps)|
    ensures exists j :: 0 <= j < |steps| && steps[j].Store? && Stored(steps)[i] == (steps[j].name, steps[j].value)
  {
    var rest := steps[1..];
    var head := if steps[0].Store? then [(steps[0].name, steps[0].value)] else [];
    assert Stored(steps) == head + Stored(rest);
    if i < |head| {
      assert Stored(steps)[i] == (steps[0].name, steps[0].value);
    } else {
      StoredElement(rest, i - |head|);
      var j :| 0 <= j < |rest| && rest[j].Store? && Stored(rest)[i - |head|] == (rest[j].name, rest[j].value);
      assert steps[j + 1] == rest[j];
    }
  }
}
