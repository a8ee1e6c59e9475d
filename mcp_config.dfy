/** `parse_mcp_servers_json`: validation of the `mcpServers` document and
    collection of the enabled servers, each with its environment variables
    expanded. The document arrives already parsed. */
module McpConfig {
  import opened Wrappers
  import opened JsonValue
  import opened EnvExpansion

  /** `_ALLOWED_TYPES`. */
  const AllowedTypes: set<string> := {"stdio", "sse", "stream", "http", "streamable-http"}
  /** `_HTTP_TYPES`. */
  const HttpTypes: set<string> := {"sse", "stream", "http", "streamable-http"}

  /** The allowed types are the HTTP family and "stdio". */
  lemma AllowedTypesAreStdioAndHttp()
    ensures HttpTypes < AllowedTypes
    ensures AllowedTypes - HttpTypes == {"stdio"}
  {
  }

  /** The ways the parser fails, one per `raise` (and one for the TypeError
      raised by a set-membership test on an unhashable `type`). */
  datatype ConfigError =
    | TopLevelNotObject
    | ServerNotObject(name: string)
    | ArgsNotList(name: string)
    | TypeNotStdio(name: string)
    | UrlNotString(name: string)
    | UrlTypeNotHttp(name: string)
    | UnhashableType(name: string)
    | NeedsCommandOrUrl(name: string)
    | UnknownType(name: string, serverType: Json)
    | HeadersNotObject(name: string)
    | EnvNotObject(name: string)
    | CwdNotString(name: string)
    | NoEnabledServers

  /** What the loop body does with one entry: `continue`, store it, or raise. */
  datatype Verdict = Skip | Keep | Reject(error: ConfigError)

  /** `cfg.get("type")`. */
  function ServerType(cfg: Object): Json {
    GetOr(cfg, "type", JNull)
  }

  /** `cfg.get("enabled", True) is False`. */
  predicate Disabled(cfg: Object) {
    GetOr(cfg, "enabled", JBool(true)) == JBool(false)
  }

  /** The root is a dict whose `mcpServers` is a dict. */
  predicate TopLevelOk(root: Json) {
    root.JObj? && GetOr(root.o, "mcpServers", JNull).JObj?
  }

  /** `root["mcpServers"].items()`. */
  function ServerEntries(root: Json): Object
    requires TopLevelOk(root)
  {
    GetOr(root.o, "mcpServers", JNull).o
  }

  /** The stdio-versus-url checks: a `command` entry needs a list `args` and a
      falsy or "stdio" type; otherwise a `url` entry needs a string url and an
      HTTP-family type; an entry with neither is refused. */
  function BranchCheck(name: string, cfg: Object): Option<ConfigError> {
    var serverType := ServerType(cfg);
    if HasKey(cfg, "command") then
      if !GetOr(cfg, "args", JNull).JArr? then Some(ArgsNotList(name))
      else if Truthy(serverType) && serverType != JStr("stdio") then Some(TypeNotStdio(name))
      else None
    else if HasKey(cfg, "url") then
      if !GetOr(cfg, "url", JNull).JStr? then Some(UrlNotString(name))
      else match InStringSet(serverType, HttpTypes)
        case None => Some(UnhashableType(name))
        case Some(false) => Some(UrlTypeNotHttp(name))
        case Some(true) => None
    else Some(NeedsCommandOrUrl(name))
  }

  /** The check that a truthy type is one of the allowed types. */
  function TypeCheck(name: string, cfg: Object): Option<ConfigError> {
    var serverType := ServerType(cfg);
    if !Truthy(serverType) then None
    else match InStringSet(serverType, AllowedTypes)
      case None => Some(UnhashableType(name))
      case Some(false) => Some(UnknownType(name, serverType))
      case Some(true) => None
  }

  /** The optional-field checks, in order: headers, env, cwd. */
  function OptionalFieldsCheck(name: string, cfg: Object): Option<ConfigError> {
    if HasKey(cfg, "headers") && !GetOr(cfg, "headers", JNull).JObj? then Some(HeadersNotObject(name))
    else if HasKey(cfg, "env") && !GetOr(cfg, "env", JNull).JObj? then Some(EnvNotObject(name))
    else if HasKey(cfg, "cwd") && GetOr(cfg, "cwd", JNull) != JNull && !GetOr(cfg, "cwd", JNull).JStr?
    then Some(CwdNotString(name))
    else None
  }

  /** The body of the loop over the server entries, for one entry. */
  function EntryVerdict(name: string, cfg: Json): Verdict {
    if !cfg.JObj? then Reject(ServerNotObject(name))
    else if Disabled(cfg.o) then Skip
    else match BranchCheck(name, cfg.o)
      case Some(e) => Reject(e)
      case None =>
        match TypeCheck(name, cfg.o)
        case Some(e) => Reject(e)
        case None =>
          match OptionalFieldsCheck(name, cfg.o)
          case Some(e) => Reject(e)
          case None => Keep
  }

  /** Every error an entry raises names that entry. */
  lemma EntryErrorNamesEntry(name: string, cfg: Json)
    ensures EntryVerdict(name, cfg).Reject? ==>
              && !EntryVerdict(name, cfg).error.TopLevelNotObject?
              && !EntryVerdict(name, cfg).error.NoEnabledServers?
              && EntryVerdict(name, cfg).error.name == name
  {
  }

  function VerdictAt(entries: Object, j: int): Verdict
    requires 0 <= j < |entries|
  {
    EntryVerdict(entries[j].0, entries[j].1)
  }

  /** What one pass of the loop body does to the `servers` dict. */
  datatype Step = Continue | Store(name: string, value: Json) | Raise(error: ConfigError)

  /** The loop body for one entry: skip it, store its expansion under its
      name, or raise. */
  function StepOf(environ: map<string, string>, name: string, cfg: Json): Step {
    match EntryVerdict(name, cfg)
    case Skip => Continue
    case Keep => Store(name, ExpandEnv(environ, cfg))
    case Reject(e) => Raise(e)
  }

  /** The loop body's step for each entry, in order. */
  function Steps(environ: map<string, string>, entries: Object): (steps: seq<Step>)
    ensures |steps| == |entries|
  {
    seq(|entries|, i requires 0 <= i < |entries| => StepOf(environ, entries[i].0, entries[i].1))
  }

  /** The state after the steps `steps`: the first error raised, or the
      `servers` dict built so far. */
  function Run(steps: seq<Step>): Result<Object, ConfigError>
    decreases |steps|
  {
    if steps == [] then Success([])
    else
      match Run(steps[..|steps| - 1])
      case Failure(e) => Failure(e)
      case Success(servers) =>
        match steps[|steps| - 1]
        case Continue => Success(servers)
        case Raise(e) => Failure(e)
        case Store(name, value) => Success(SetItem(servers, name, value))
  }

  /** `parse_mcp_servers_json` on an already parsed document. */
  function Parse(environ: map<string, string>, root: Json): Result<Object, ConfigError> {
    if !TopLevelOk(root) then Failure(TopLevelNotObject)
    else match Run(Steps(environ, ServerEntries(root)))
      case Failure(e) => Failure(e)
      case Success(servers) => if servers == [] then Failure(NoEnabledServers) else Success(servers)
  }

  /** Once a step has raised, the later steps change nothing. */
  lemma {:induction false} RunFailureSticks(steps: seq<Step>, n: nat)
    requires n <= |steps|
    requires Run(steps[..n]).Failure?
    ensures Run(steps) == Run(steps[..n])
    decreases |steps| - n
  {
    if n < |steps| {
      assert steps[..n + 1][..n] == steps[..n];
      RunFailureSticks(steps, n + 1);
    } else {
      assert steps[..n] == steps;
    }
  }

  /** The loop of `parse_mcp_servers_json`: entries are taken in order, a
      disabled entry is skipped, the first invalid entry ends the call with its
      error, every other entry is stored, expanded, under its name, and an
      empty result is refused. */
  method ParseMcpServersJson(environ: map<string, string>, root: Json)
    returns (r: Result<Object, ConfigError>)
    ensures r == Parse(environ, root)
    ensures r.Success? ==> r.value != []
  {
    if !(root.JObj? && GetOr(root.o, "mcpServers", JNull).JObj?) {
      return Failure(TopLevelNotObject);
    }
    var entries := GetOr(root.o, "mcpServers", JNull).o;
    ghost var steps := Steps(environ, entries);
    var servers: Object := [];
    var i := 0;
    while i < |entries|
      invariant 0 <= i <= |entries|
      invariant Run(steps[..i]) == Success(servers)
    {
      var name := entries[i].0;
      var cfg := entries[i].1;
      assert steps[..i + 1][..i] == steps[..i];
      assert steps[i] == StepOf(environ, name, cfg);
      var verdict := EntryVerdict(name, cfg);
      if verdict.Reject? {
        RunFailureSticks(steps, i + 1);
        return Failure(verdict.error);
      }
      if verdict.Keep? {
        servers := SetItem(servers, name, ExpandEnv(environ, cfg));
      }
      i := i + 1;
    }
    assert steps[..i] == steps;
    if servers == [] {
      return Failure(NoEnabledServers);
    }
    return Success(servers);
  }

  // ----- Independent descriptions of what the parser accepts -----

  /** A valid stdio entry: a `command`, a list `args`, and no type other than
      "stdio" (a falsy type counts as none). */
  predicate StdioValid(cfg: Object) {
    && HasKey(cfg, "command")
    && GetOr(cfg, "args", JNull).JArr?
    && (!Truthy(ServerType(cfg)) || ServerType(cfg) == JStr("stdio"))
  }

  /** A valid URL entry: no `command`, a string `url`, and a type from the
      HTTP family. */
  predicate UrlValid(cfg: Object) {
    && !HasKey(cfg, "command")
    && HasKey(cfg, "url")
    && GetOr(cfg, "url", JNull).JStr?
    && ServerType(cfg).JStr?
    && ServerType(cfg).s in HttpTypes
  }

  /** Optional fields of the right shape: `headers` and `env` dicts when
      present, `cwd` a string or null. */
  predicate OptionalFieldsValid(cfg: Object) {
    && (HasKey(cfg, "headers") ==> GetOr(cfg, "headers", JNull).JObj?)
    && (HasKey(cfg, "env") ==> GetOr(cfg, "env", JNull).JObj?)
    && (GetOr(cfg, "cwd", JNull).JNull? || GetOr(cfg, "cwd", JNull).JStr?)
  }

  /** An entry is stored exactly when it is an enabled dict that is a valid
      stdio or URL entry with well-shaped optional fields. */
  lemma EntryKeptIff(name: string, cfg: Json)
    ensures EntryVerdict(name, cfg) == Keep
        <==> cfg.JObj? && !Disabled(cfg.o)
             && (StdioValid(cfg.o) || UrlValid(cfg.o))
             && OptionalFieldsValid(cfg.o)
  {
    if cfg.JObj? && !Disabled(cfg.o) && BranchCheck(name, cfg.o) == None {
      TypeCheckRedundant(name, cfg.o);
    }
  }

  /** An entry is skipped exactly when it is a dict whose `enabled` is the
      boolean false; nothing else about it is looked at. */
  lemma DisabledEntrySkipped(name: string, cfg: Json)
    ensures EntryVerdict(name, cfg) == Skip <==> cfg.JObj? && Disabled(cfg.o)
  {
  }

  /** The verdict on a dict entry depends only on whether it is disabled and
      on the keys the checks read (`url` only when there is no `command`). */
  lemma VerdictReadsOnly(name: string, a: Object, b: Object)
    requires Disabled(a) == Disabled(b)
    requires Get(a, "command") == Get(b, "command")
    requires !HasKey(a, "command") ==> Get(a, "url") == Get(b, "url")
    requires Get(a, "args") == Get(b, "args") && Get(a, "type") == Get(b, "type")
    requires Get(a, "headers") == Get(b, "headers") && Get(a, "env") == Get(b, "env")
    requires Get(a, "cwd") == Get(b, "cwd")
    ensures EntryVerdict(name, JObj(a)) == EntryVerdict(name, JObj(b))
  {
    assert BranchCheck(name, a) == BranchCheck(name, b);
    assert TypeCheck(name, a) == TypeCheck(name, b);
    assert OptionalFieldsCheck(name, a) == OptionalFieldsCheck(name, b);
  }

  /** Only the boolean false disables: any other `enabled` value, `0` or
      `null` included, leaves the verdict what it would be without the key. */
  lemma EnabledOnlyFalseMatters(name: string, cfg: Object)
    requires GetOr(cfg, "enabled", JBool(true)) != JBool(false)
    ensures EntryVerdict(name, JObj(cfg)) == EntryVerdict(name, JObj(Remove(cfg, "enabled")))
  {
    var o := Remove(cfg, "enabled");
    assert Get(o, "command") == Get(cfg, "command");
    assert Get(o, "url") == Get(cfg, "url");
    assert Get(o, "args") == Get(cfg, "args");
    assert Get(o, "type") == Get(cfg, "type");
    assert Get(o, "headers") == Get(cfg, "headers");
    assert Get(o, "env") == Get(cfg, "env");
    assert Get(o, "cwd") == Get(cfg, "cwd");
    VerdictReadsOnly(name, cfg, o);
  }

  /** The command branch wins: when `command` is present, a `url` key changes
      nothing, so an entry with both is not refused for having both. */
  lemma CommandBranchIgnoresUrl(name: string, cfg: Object)
    requires HasKey(cfg, "command")
    ensures EntryVerdict(name, JObj(cfg)) == EntryVerdict(name, JObj(Remove(cfg, "url")))
  {
    var o := Remove(cfg, "url");
    assert Get(o, "enabled") == Get(cfg, "enabled");
    assert Get(o, "command") == Get(cfg, "command");
    assert Get(o, "args") == Get(cfg, "args");
    assert Get(o, "type") == Get(cfg, "type");
    assert Get(o, "headers") == Get(cfg, "headers");
    assert Get(o, "env") == Get(cfg, "env");
    assert Get(o, "cwd") == Get(cfg, "cwd");
    VerdictReadsOnly(name, cfg, o);
  }

  /** The errors of an enabled `command` entry: a missing or non-list `args`
      first, then a truthy type other than "stdio". */
  lemma StdioBranchErrors(name: string, cfg: Object)
    requires !Disabled(cfg) && HasKey(cfg, "command")
    ensures EntryVerdict(name, JObj(cfg)) == Reject(ArgsNotList(name))
        <==> !GetOr(cfg, "args", JNull).JArr?
    ensures EntryVerdict(name, JObj(cfg)) == Reject(TypeNotStdio(name))
        <==> GetOr(cfg, "args", JNull).JArr?
             && Truthy(ServerType(cfg)) && ServerType(cfg) != JStr("stdio")
  {
    if BranchCheck(name, cfg) == None {
      TypeCheckRedundant(name, cfg);
    }
  }

  /** The errors of an enabled `url` entry without `command`: a non-string url
      first, then a type that is a list or dict (TypeError), then any other
      type outside the HTTP family, a missing one included. */
  lemma UrlBranchErrors(name: string, cfg: Object)
    requires !Disabled(cfg) && !HasKey(cfg, "command") && HasKey(cfg, "url")
    ensures EntryVerdict(name, JObj(cfg)) == Reject(UrlNotString(name))
        <==> !GetOr(cfg, "url", JNull).JStr?
    ensures EntryVerdict(name, JObj(cfg)) == Reject(UnhashableType(name))
        <==> GetOr(cfg, "url", JNull).JStr? && (ServerType(cfg).JArr? || ServerType(cfg).JObj?)
    ensures EntryVerdict(name, JObj(cfg)) == Reject(UrlTypeNotHttp(name))
        <==> GetOr(cfg, "url", JNull).JStr? && !ServerType(cfg).JArr? && !ServerType(cfg).JObj?
             && !(ServerType(cfg).JStr? && ServerType(cfg).s in HttpTypes)
  {
    if BranchCheck(name, cfg) == None {
      TypeCheckRedundant(name, cfg);
    }
  }

  /** An enabled dict entry with neither `command` nor `url` is refused; a
      disabled one is not. */
  lemma NeitherCommandNorUrl(name: string, cfg: Object)
    requires !HasKey(cfg, "command") && !HasKey(cfg, "url")
    ensures EntryVerdict(name, JObj(cfg)) == (if Disabled(cfg) then Skip else Reject(NeedsCommandOrUrl(name)))
  {
  }

  /** The unknown-type check never fires: every entry that passes the branch
      checks has a falsy type or one of the allowed types. */
  lemma TypeCheckRedundant(name: string, cfg: Object)
    requires BranchCheck(name, cfg) == None
    ensures !Truthy(ServerType(cfg)) || (ServerType(cfg).JStr? && ServerType(cfg).s in AllowedTypes)
    ensures TypeCheck(name, cfg) == None
  {
    if !HasKey(cfg, "command") {
      assert ServerType(cfg).JStr? && ServerType(cfg).s in HttpTypes;
    }
  }

  /** No entry is ever refused as having an unknown type. */
  lemma NoUnknownTypeError(name: string, cfg: Json)
    ensures !EntryVerdict(name, cfg).Reject? || !EntryVerdict(name, cfg).error.UnknownType?
  {
    if cfg.JObj? && !Disabled(cfg.o) && BranchCheck(name, cfg.o) == None {
      TypeCheckRedundant(name, cfg.o);
    }
  }

  /** An enabled entry that passes the branch checks is refused, in this
      order, for a non-dict `headers`, a non-dict `env`, or a `cwd` that is
      neither null nor a string. */
  lemma OptionalFieldErrors(name: string, cfg: Object)
    requires !Disabled(cfg) && BranchCheck(name, cfg) == None
    ensures EntryVerdict(name, JObj(cfg)) == Reject(HeadersNotObject(name))
        <==> HasKey(cfg, "headers") && !GetOr(cfg, "headers", JNull).JObj?
    ensures EntryVerdict(name, JObj(cfg)) == Reject(EnvNotObject(name))
        <==> (HasKey(cfg, "headers") ==> GetOr(cfg, "headers", JNull).JObj?)
             && HasKey(cfg, "env") && !GetOr(cfg, "env", JNull).JObj?
    ensures EntryVerdict(name, JObj(cfg)) == Reject(CwdNotString(name))
        <==> (HasKey(cfg, "headers") ==> GetOr(cfg, "headers", JNull).JObj?)
             && (HasKey(cfg, "env") ==> GetOr(cfg, "env", JNull).JObj?)
             && !GetOr(cfg, "cwd", JNull).JNull? && !GetOr(cfg, "cwd", JNull).JStr?
  {
    TypeCheckRedundant(name, cfg);
  }

  // ----- The loop, step by step -----

  /** No step before position `k` raises. */
  predicate NoRaiseBefore(steps: seq<Step>, k: int)
    requires 0 <= k <= |steps|
  {
    forall j :: 0 <= j < k ==> !steps[j].Raise?
  }

  /** No two stored entries share a name. */
  predicate StoredNamesDistinct(steps: seq<Step>) {
    forall i, j :: 0 <= i < j < |steps| && steps[i].Store? && steps[j].Store? ==> steps[i].name != steps[j].name
  }

  /** The stored entries, described directly: each stored step's pair, in
      order. */
  function Stored(steps: seq<Step>): Object {
    if steps == [] then []
    else (if steps[0].Store? then [(steps[0].name, steps[0].value)] else []) + Stored(steps[1..])
  }

  lemma {:induction false} StoredAppend(a: seq<Step>, b: seq<Step>)
    ensures Stored(a + b) == Stored(a) + Stored(b)
  {
    if a != [] {
      assert (a + b)[1..] == a[1..] + b;
      StoredAppend(a[1..], b);
    } else {
      assert a + b == b;
    }
  }

  /** The keys of the stored entries are the names of the stored steps, and
      when those are distinct each maps to its step's value. */
  lemma {:induction false} StoredContents(steps: seq<Step>)
    ensures forall n :: HasKey(Stored(steps), n)
              <==> exists j :: 0 <= j < |steps| && steps[j].Store? && steps[j].name == n
    ensures StoredNamesDistinct(steps) ==>
              forall j :: 0 <= j < |steps| && steps[j].Store? ==> Get(Stored(steps), steps[j].name) == Some(steps[j].value)
  {
    if steps != [] {
      var rest := steps[1..];
      StoredContents(rest);
      var s := Stored(steps);
      var tail := Stored(rest);
      forall j | 0 <= j < |rest| ensures rest[j] == steps[j + 1] { }
      if steps[0].Store? {
        var p := (steps[0].name, steps[0].value);
        assert s == [p] + tail;
        forall n | n != p.0 ensures Get(s, n) == Get(tail, n) {
          GetPastHead(p, tail, n);
        }
        assert Get(s, p.0) == Some(p.1);
        forall n ensures HasKey(s, n) <==> exists j :: 0 <= j < |steps| && steps[j].Store? && steps[j].name == n {
          if n == p.0 {
            assert Get(s, n).Some?;
            assert steps[0].Store? && steps[0].name == n;
          } else {
            assert Get(s, n) == Get(tail, n);
            assert HasKey(s, n) <==> HasKey(tail, n);
            if HasKey(s, n) {
              var j :| 0 <= j < |rest| && rest[j].Store? && rest[j].name == n;
              assert steps[j + 1].Store? && steps[j + 1].name == n;
            }
            if exists j :: 0 <= j < |steps| && steps[j].Store? && steps[j].name == n {
              var j :| 0 <= j < |steps| && steps[j].Store? && steps[j].name == n;
              assert j > 0;
              assert rest[j - 1].Store? && rest[j - 1].name == n;
            }
          }
        }
        if StoredNamesDistinct(steps) {
          assert StoredNamesDistinct(rest);
          forall j | 0 <= j < |steps| && steps[j].Store? ensures Get(s, steps[j].name) == Some(steps[j].value) {
            if j > 0 {
              assert rest[j - 1] == steps[j];
            }
          }
        }
      } else {
        assert s == tail;
        forall n ensures HasKey(s, n) <==> exists j :: 0 <= j < |steps| && steps[j].Store? && steps[j].name == n {
          if HasKey(s, n) {
            var j :| 0 <= j < |rest| && rest[j].Store? && rest[j].name == n;
            assert steps[j + 1].Store? && steps[j + 1].name == n;
          }
          if exists j :: 0 <= j < |steps| && steps[j].Store? && steps[j].name == n {
            var j :| 0 <= j < |steps| && steps[j].Store? && steps[j].name == n;
            assert rest[j - 1].Store? && rest[j - 1].name == n;
          }
        }
        if StoredNamesDistinct(steps) {
          assert StoredNamesDistinct(rest);
          forall j | 0 <= j < |steps| && steps[j].Store? ensures Get(s, steps[j].name) == Some(steps[j].value) {
            assert rest[j - 1] == steps[j];
          }
        }
      }
    }
  }

  /** A run that succeeds succeeded before its last step, which did not raise. */
  lemma RunLastStep(steps: seq<Step>)
    requires steps != [] && Run(steps).Success?
    ensures Run(steps[..|steps| - 1]).Success? && !steps[|steps| - 1].Raise?
  {
  }

  /** A run that went to the end met no raising step. */
  lemma {:induction false} RunSuccessNoRaise(steps: seq<Step>)
    requires Run(steps).Success?
    ensures NoRaiseBefore(steps, |steps|)
    decreases |steps|
  {
    if steps != [] {
      RunLastStep(steps);
      RunSuccessNoRaise(steps[..|steps| - 1]);
      NoRaiseExtend(steps);
    }
  }

  /** Extending a raise-free prefix by a step that does not raise. */
  lemma NoRaiseExtend(steps: seq<Step>)
    requires steps != [] && NoRaiseBefore(steps[..|steps| - 1], |steps| - 1) && !steps[|steps| - 1].Raise?
    ensures NoRaiseBefore(steps, |steps|)
  {
    var n := |steps| - 1;
    forall j | 0 <= j < n ensures !steps[j].Raise? {
      assert steps[..n][j] == steps[j];
    }
  }

  /** A run that meets no raising step goes to the end. */
  lemma {:induction false} RunNoRaiseSucceeds(steps: seq<Step>)
    requires NoRaiseBefore(steps, |steps|)
    ensures Run(steps).Success?
    decreases |steps|
  {
    if steps != [] {
      var n := |steps| - 1;
      var init := steps[..n];
      forall j | 0 <= j < n ensures !init[j].Raise? {
        assert init[j] == steps[j];
      }
      RunNoRaiseSucceeds(init);
      assert !steps[n].Raise?;
    }
  }

  /** A run fails with the error of its first raising step. */
  lemma RunFirstRaise(steps: seq<Step>, k: nat)
    requires k < |steps| && NoRaiseBefore(steps, k) && steps[k].Raise?
    ensures Run(steps) == Failure(steps[k].error)
  {
    var pre := steps[..k + 1];
    assert pre[..k] == steps[..k];
    forall j | 0 <= j < k ensures !steps[..k][j].Raise? {
      assert steps[..k][j] == steps[j];
    }
    RunNoRaiseSucceeds(steps[..k]);
    assert Run(pre) == Failure(steps[k].error);
    RunFailureSticks(steps, k + 1);
  }

  /** A failed run has a first raising step, and fails with its error. */
  lemma {:induction false} RunFailureWitness(steps: seq<Step>)
    requires Run(steps).Failure?
    ensures exists k :: 0 <= k < |steps| && NoRaiseBefore(steps, k) && steps[k] == Raise(Run(steps).error)
    decreases |steps|
  {
    var n := |steps| - 1;
    var init := steps[..n];
    forall j | 0 <= j < n ensures init[j] == steps[j] { }
    if Run(init).Failure? {
      RunFailureWitness(init);
      var k :| 0 <= k < |init| && NoRaiseBefore(init, k) && init[k] == Raise(Run(init).error);
      assert NoRaiseBefore(steps, k);
    } else {
      RunSuccessNoRaise(init);
      assert NoRaiseBefore(steps, n);
    }
  }

  /** With distinct stored names and no raising step, the run builds exactly
      the stored pairs, in order. */
  lemma {:induction false} RunIsStored(steps: seq<Step>)
    requires StoredNamesDistinct(steps) && NoRaiseBefore(steps, |steps|)
    ensures Run(steps) == Success(Stored(steps))
    decreases |steps|
  {
    if steps != [] {
      var n := |steps| - 1;
      var init := steps[..n];
      var last := steps[n];
      forall j | 0 <= j < n ensures init[j] == steps[j] { }
      assert StoredNamesDistinct(init);
      RunIsStored(init);
      assert steps == init + [last];
      StoredAppend(init, [last]);
      assert [last][1..] == [];
      assert steps[..n] == init;
      if last.Store? {
        StoredContents(init);
        forall j | 0 <= j < |init| && init[j].Store? ensures init[j].name != last.name {
          assert init[j] == steps[j];
        }
        assert !HasKey(Stored(init), last.name);
        assert Stored([last]) == [(last.name, last.value)];
        assert SetItem(Stored(init), last.name, last.value) == Stored(init) + [(last.name, last.value)];
      } else {
        assert !steps[n].Raise?;
        assert Stored([last]) == [];
        assert Stored(init) + [] == Stored(init);
      }
    }
  }

  /** A run ends with an empty dict exactly when every step is a skip. */
  lemma {:induction false} RunEmptyIffAllContinue(steps: seq<Step>)
    ensures Run(steps) == Success([]) <==> forall j :: 0 <= j < |steps| ==> steps[j] == Continue
    decreases |steps|
  {
    if steps != [] {
      var n := |steps| - 1;
      var init := steps[..n];
      RunEmptyIffAllContinue(init);
      forall j | 0 <= j < n ensures init[j] == steps[j] { }
      if Run(init).Success? && steps[n].Store? {
        var r := SetItem(Run(init).value, steps[n].name, steps[n].value);
        assert Get(r, steps[n].name).Some?;
      }
    }
  }

  // ----- From entries to steps -----

  /** The step of entry `j` reflects its verdict. */
  lemma StepAt(environ: map<string, string>, entries: Object, j: nat)
    requires j < |entries|
    ensures Steps(environ, entries)[j].Raise? <==> VerdictAt(entries, j).Reject?
    ensures VerdictAt(entries, j).Reject? ==> Steps(environ, entries)[j].error == VerdictAt(entries, j).error
    ensures Steps(environ, entries)[j] == Continue <==> VerdictAt(entries, j) == Skip
    ensures Steps(environ, entries)[j].Store? <==> VerdictAt(entries, j) == Keep
    ensures Steps(environ, entries)[j].Store? ==>
              Steps(environ, entries)[j] == Store(entries[j].0, ExpandEnv(environ, entries[j].1))
  {
  }

  /** No entry before position `k` raises. */
  predicate NoRejectBefore(entries: Object, k: int)
    requires 0 <= k <= |entries|
  {
    forall j :: 0 <= j < k ==> !VerdictAt(entries, j).Reject?
  }

  lemma AllSkippedIsAllContinue(environ: map<string, string>, entries: Object)
    ensures (forall j :: 0 <= j < |entries| ==> VerdictAt(entries, j) == Skip)
        <==> (forall j :: 0 <= j < |entries| ==> Steps(environ, entries)[j] == Continue)
  {
    forall j | 0 <= j < |entries| ensures Steps(environ, entries)[j] == Continue <==> VerdictAt(entries, j) == Skip {
      StepAt(environ, entries, j);
    }
  }

  lemma NoRejectIsNoRaise(environ: map<string, string>, entries: Object, k: nat)
    requires k <= |entries|
    ensures NoRejectBefore(entries, k) <==> NoRaiseBefore(Steps(environ, entries), k)
  {
    forall j | 0 <= j < k ensures Steps(environ, entries)[j].Raise? <==> VerdictAt(entries, j).Reject? {
      StepAt(environ, entries, j);
    }
  }

  // ----- Properties of parse_mcp_servers_json -----

  /** A root that is not a dict, or whose `mcpServers` is missing or not a
      dict, fails with the top-level error, and that error arises in no other
      way. */
  lemma ParseTopLevel(environ: map<string, string>, root: Json)
    ensures Parse(environ, root) == Failure(TopLevelNotObject) <==> !TopLevelOk(root)
  {
    if TopLevelOk(root) {
      var entries := ServerEntries(root);
      var steps := Steps(environ, entries);
      if Run(steps) == Failure(TopLevelNotObject) {
        RunFailureWitness(steps);
        var k :| 0 <= k < |steps| && NoRaiseBefore(steps, k) && steps[k] == Raise(TopLevelNotObject);
        StepAt(environ, entries, k);
        EntryErrorNamesEntry(entries[k].0, entries[k].1);
        assert false;
      }
    }
  }

  /** First error wins: for a well-formed top level, the call fails with the
      error of the first invalid entry. */
  lemma ParseFirstErrorWins(environ: map<string, string>, root: Json, k: nat)
    requires TopLevelOk(root) && k < |ServerEntries(root)|
    requires NoRejectBefore(ServerEntries(root), k) && VerdictAt(ServerEntries(root), k).Reject?
    ensures Parse(environ, root) == Failure(VerdictAt(ServerEntries(root), k).error)
  {
    var entries := ServerEntries(root);
    NoRejectIsNoRaise(environ, entries, k);
    StepAt(environ, entries, k);
    RunFirstRaise(Steps(environ, entries), k);
  }

  /** Conversely, an entry-level error always comes from the first invalid
      entry. */
  lemma ParseEntryErrorHasWitness(environ: map<string, string>, root: Json, e: ConfigError)
    requires TopLevelOk(root) && e != NoEnabledServers
    requires Parse(environ, root) == Failure(e)
    ensures exists k :: 0 <= k < |ServerEntries(root)| && NoRejectBefore(ServerEntries(root), k)
                        && VerdictAt(ServerEntries(root), k) == Reject(e)
  {
    var entries := ServerEntries(root);
    var steps := Steps(environ, entries);
    RunFailureWitness(steps);
    var k :| 0 <= k < |steps| && NoRaiseBefore(steps, k) && steps[k] == Raise(e);
    NoRejectIsNoRaise(environ, entries, k);
    StepAt(environ, entries, k);
  }

  /** The no-enabled-servers error occurs exactly when the top level is well
      formed and every entry is disabled (an empty `mcpServers` included). */
  lemma ParseNoEnabledServers(environ: map<string, string>, root: Json)
    ensures Parse(environ, root) == Failure(NoEnabledServers)
        <==> TopLevelOk(root)
             && forall j :: 0 <= j < |ServerEntries(root)| ==> VerdictAt(ServerEntries(root), j) == Skip
  {
    if TopLevelOk(root) {
      var entries := ServerEntries(root);
      var steps := Steps(environ, entries);
      RunEmptyIffAllContinue(steps);
      AllSkippedIsAllContinue(environ, entries);
      if Run(steps) == Failure(NoEnabledServers) {
        RunFailureWitness(steps);
        var k :| 0 <= k < |steps| && NoRaiseBefore(steps, k) && steps[k] == Raise(NoEnabledServers);
        StepAt(environ, entries, k);
        EntryErrorNamesEntry(entries[k].0, entries[k].1);
        assert false;
      }
    }
  }

  /** The call succeeds exactly when the top level is well formed, no entry is
      invalid and at least one entry is kept; the result is then never empty. */
  lemma ParseSucceedsIff(environ: map<string, string>, root: Json)
    ensures Parse(environ, root).Success?
        <==> TopLevelOk(root)
             && NoRejectBefore(ServerEntries(root), |ServerEntries(root)|)
             && (exists j :: 0 <= j < |ServerEntries(root)| && VerdictAt(ServerEntries(root), j) == Keep)
    ensures Parse(environ, root).Success? ==> Parse(environ, root).value != []
  {
    if TopLevelOk(root) {
      var entries := ServerEntries(root);
      var steps := Steps(environ, entries);
      RunEmptyIffAllContinue(steps);
      NoRejectIsNoRaise(environ, entries, |entries|);
      forall j | 0 <= j < |entries|
        ensures (steps[j] == Continue <==> VerdictAt(entries, j) == Skip)
             && (steps[j].Raise? <==> VerdictAt(entries, j).Reject?)
      {
        StepAt(environ, entries, j);
      }
      if Run(steps).Success? {
        RunSuccessNoRaise(steps);
      } else if NoRaiseBefore(steps, |steps|) {
        RunNoRaiseSucceeds(steps);
      }
    }
  }

  /** The result of a successful call lists the kept entries, each expanded,
      in input order; its keys are exactly the names of the kept entries and
      each maps to the expansion of its entry. Server names are distinct, as
      the keys of the dict `root["mcpServers"]` are. */
  lemma ParseResult(environ: map<string, string>, root: Json)
    requires TopLevelOk(root) && UniqueKeys(ServerEntries(root))
    requires Parse(environ, root).Success?
    ensures Parse(environ, root).value == Stored(Steps(environ, ServerEntries(root)))
    ensures forall n :: HasKey(Parse(environ, root).value, n)
              <==> exists j :: 0 <= j < |ServerEntries(root)| && ServerEntries(root)[j].0 == n
                               && VerdictAt(ServerEntries(root), j) == Keep
    ensures forall j :: 0 <= j < |ServerEntries(root)| && VerdictAt(ServerEntries(root), j) == Keep
              ==> Get(Parse(environ, root).value, ServerEntries(root)[j].0)
                  == Some(ExpandEnv(environ, ServerEntries(root)[j].1))
  {
    var entries := ServerEntries(root);
    var steps := Steps(environ, entries);
    forall j | 0 <= j < |entries|
      ensures (steps[j].Store? <==> VerdictAt(entries, j) == Keep)
           && (steps[j].Store? ==> steps[j] == Store(entries[j].0, ExpandEnv(environ, entries[j].1)))
    {
      StepAt(environ, entries, j);
    }
    RunSuccessNoRaise(steps);
    RunIsStored(steps);
    StoredContents(steps);
  }
}
