# MCP server configuration: parser and builder

This project models the configuration core of `test_mcp_server.py`, a script
that connects an agent to MCP (Model Context Protocol) servers listed in an
inline JSON document, and proves properties of the model. The core has three
parts:

- `parse_mcp_servers_json` validates the `mcpServers` dict entry by entry. It
  skips entries whose `enabled` is `false`. It fails with the error of the
  first invalid entry. It stores every other entry, environment-expanded,
  under its name. It refuses an empty result.
- `_expand_env` applies `os.path.expandvars` to every string of a value and
  leaves the structure alone.
- `build_server` turns one parsed entry into a stdio, SSE or streamable-HTTP
  server description. It picks its parameters and its session timeout.

Modules and files:

- `wrappers.dfy` (`Wrappers`): `Option` and `Result`.
- `json.dfy` (`JsonValue`): the value tree that `json.loads` returns, and the
  dict operations the code uses. These are Python truthiness, `in`, `get`,
  `d[k] = v` (an existing key keeps its place, a new key goes last) and
  membership of a value in a set of strings. That membership test raises
  TypeError for a list or a dict.
- `expandvars.dfy` (`PosixPath`): `os.path.expandvars` as the POSIX
  implementation defines it. A reference is `$name` or `${name}`, with ASCII
  word characters. A string whose references are all unset is returned
  unchanged (`ExpandVarsUnsetKeepsText`); substituted text is not scanned
  again.
- `expand_env.dfy` (`EnvExpansion`): `_expand_env`.
- `mcp_config.dfy` (`McpConfig`): the constants `_ALLOWED_TYPES` and
  `_HTTP_TYPES`, the per-entry checks, and the parser.
  - `EntryVerdict` gives each entry's verdict: skip, keep, or reject with an error.
  - `Run` is the parser's loop as a fold over per-entry steps, and `Parse` is the whole call.
  - The method `ParseMcpServersJson` is the loop itself. It is proved equal to `Parse`.
  - Predicates `StdioValid`, `UrlValid` and `OptionalFieldsValid` describe
    independently what the checks accept. The lemmas connect the two descriptions.
- `build_server.dfy` (`McpServerBuild`): `build_server`, and how it behaves on
  what the parser returns.

Each Python `raise` is an error value:

- `ValueError` in the parser is a `ConfigError`.
- `KeyError` in the builder is `MissingKey`.
- The TypeError of `timedelta(seconds=...)` is `TimeoutNotNumeric`.
- The TypeError that `server_type not in _HTTP_TYPES` raises for a list or
  dict type is `UnhashableType`.

The process environment is a parameter `environ`.

The model follows the code as written:

- An entry with both `command` and `url` is accepted as a stdio entry.
- A `command` entry without a list `args` is refused.
- Each string is expanded once against the process environment; an entry's `env` map is not used to resolve references.
- The default session timeout of 30 seconds is applied by `build_server`, not by the parser.

Lines 103-106 of the source, the unknown-type check, can never fire.
`TypeCheckRedundant` and `NoUnknownTypeError` prove this.

The parser does not check `timeout`. `BuildKeptEntry` shows the consequence:
an accepted entry with a streamable-HTTP type makes `build_server` fail
exactly when its timeout is, after expansion, a non-empty string, list or
dict. An empty one is falsy and is never passed to `timedelta`. No other
accepted entry makes it fail (apart from the OverflowError listed under
"## Left out").

## Model

| member | source | states |
|---|---|---|
| JsonValue.Truthy | test_mcp_server.py:88 | Python truthiness of a parsed value: `null`, `false`, zero, `""`, `[]` and `{}` are falsy (a definition; used by every `if x` the code writes) |
| JsonValue.Get | test_mcp_server.py:86 | `d.get(k)` returns a value exactly when `k` is a key; which value is proved by `GetFirstMatch` and `UniqueKeysGet` |
| JsonValue.GetFirstMatch | test_mcp_server.py:86 | the value `d.get(k)` returns is the one paired with `k` in the first member with that key |
| JsonValue.UniqueKeysGet | test_mcp_server.py:86 | in a dict without repeated keys, each key looks up the value paired with it |
| JsonValue.HasKey | test_mcp_server.py:85 | `k in d`: `k` is one of the dict's keys (a definition; used for the membership tests at lines 85, 90, 109-113, 128, 146 and 149) |
| JsonValue.GetOr | test_mcp_server.py:79 | `d.get(k, default)` is the value `Get` finds when the key is present (the paired value, by `GetFirstMatch`) and the default otherwise |
| JsonValue.SetItem | test_mcp_server.py:116 | `d[k] = v`: a new key is appended, an existing key keeps its position, `k` then maps to `v`, and every other key is unchanged |
| JsonValue.InStringSet | test_mcp_server.py:93 | `t in s` raises exactly for a list or dict `t`, and is true exactly for a string member of `s` |
| PosixPath.MatchRef | test_mcp_server.py:53 | the reference at a `$`: `$` + a maximal run of word characters, else `${...}` up to the first `}`; no reference exactly when neither form matches |
| PosixPath.Substitute | test_mcp_server.py:53 | a string with no `$` is returned unchanged |
| PosixPath.SubstituteUnsetKeepsText | test_mcp_server.py:53 | when no reference names a variable of the environment, every reference is copied verbatim and the string is unchanged |
| PosixPath.ExpandVars | test_mcp_server.py:53 | `os.path.expandvars`: the early return for a string without `$`, then the substitution loop; characterised by the lemmas below |
| PosixPath.ExpandVarsUnsetKeepsText | test_mcp_server.py:53 | for any environment, a string none of whose references names a set variable is returned unchanged |
| PosixPath.ExpandVarsEmptyEnvironIdentity | test_mcp_server.py:53 | `expandvars` with an empty environment is the identity |
| PosixPath.ExpandVarsBracedExample | test_mcp_server.py:53 | `${A}/x` with `A=1` expands to `1/x` |
| PosixPath.ExpandVarsUnsetExample | test_mcp_server.py:53 | a reference to an unset variable (`$HOME/x` with only `A` set) is kept as written |
| PosixPath.ExpandVarsSinglePass | test_mcp_server.py:53 | substituted text is not expanded again: `$A` with `A=$B`, `B=x` gives `$B` |
| EnvExpansion.ExpandEnv | test_mcp_server.py:50-58 | null, booleans and numbers are returned as they are; strings stay strings, lists stay lists of the same length, dicts stay dicts with the same keys in the same order |
| EnvExpansion.ExpandEnvPreservesSkeleton | test_mcp_server.py:50-58 | expansion changes nothing but the text of strings |
| EnvExpansion.ExpandEnvLeaves | test_mcp_server.py:50-58 | the strings of the result, in document order, are the expansions of the original strings, one for one |
| EnvExpansion.ExpandEnvEmptyEnvironIdentity | test_mcp_server.py:50-58 | with an empty environment `_expand_env` returns its argument |
| EnvExpansion.GetExpanded | test_mcp_server.py:56-57 | a key of the expanded dict maps to the expansion of its original value, and missing keys stay missing |
| McpConfig.AllowedTypesAreStdioAndHttp | test_mcp_server.py:46-47 | `_HTTP_TYPES` is a proper subset of `_ALLOWED_TYPES`, and the only other allowed type is "stdio" |
| McpConfig.ServerType | test_mcp_server.py:82 | `cfg.get("type")`: the entry's type, `null` when absent (a definition) |
| McpConfig.ServerEntries | test_mcp_server.py:73 | `root["mcpServers"].items()`: the server entries in document order (a definition) |
| McpConfig.Disabled | test_mcp_server.py:79 | `cfg.get("enabled", True) is False`: only the boolean false disables (see `EnabledOnlyFalseMatters`) |
| McpConfig.TopLevelOk | test_mcp_server.py:68 | the root and its `mcpServers` are both dicts (see `ParseTopLevel`) |
| McpConfig.BranchCheck | test_mcp_server.py:85-101 | the stdio-or-url checks in source order; their outcomes are given by `StdioBranchErrors`, `UrlBranchErrors` and `NeitherCommandNorUrl` |
| McpConfig.TypeCheck | test_mcp_server.py:103-106 | the unknown-type check; `TypeCheckRedundant` proves it always passes after `BranchCheck` |
| McpConfig.OptionalFieldsCheck | test_mcp_server.py:109-114 | the headers, env and cwd checks in order; their outcomes are given by `OptionalFieldErrors` |
| McpConfig.EntryVerdict | test_mcp_server.py:76-114 | one pass of the loop body: reject, skip or keep; characterised by `EntryKeptIff`, `DisabledEntrySkipped` and `EntryErrorNamesEntry` |
| McpConfig.StepOf | test_mcp_server.py:79-116 | the loop body's effect on `servers` for one entry: `continue`, `servers[name] = _expand_env(cfg)` or `raise`; `StepAt` relates it to the entry's verdict |
| McpConfig.Steps | test_mcp_server.py:73-116 | one step per entry, in order; has as many steps as there are entries, and `StepAt` gives each step |
| McpConfig.Run | test_mcp_server.py:71-116 | the loop as a fold over per-entry steps; the `Run…` lemmas relate it to the independent `Stored` |
| McpConfig.Parse | test_mcp_server.py:61-120 | the whole call on a parsed document; characterised by the `Parse…` lemmas |
| McpConfig.ParseMcpServersJson | test_mcp_server.py:61-120 | the parser's loop computes exactly `Parse` (the fold of per-entry verdicts, with the top-level and empty-result errors) and never returns an empty dict |
| McpConfig.EntryErrorNamesEntry | test_mcp_server.py:76-114 | every error an entry raises names that entry and is neither the top-level error nor the empty-result error |
| McpConfig.EntryKeptIff | test_mcp_server.py:76-114 | an entry is stored exactly when it is an enabled dict that is a valid stdio or URL entry with well-shaped optional fields |
| McpConfig.DisabledEntrySkipped | test_mcp_server.py:79-80 | an entry is skipped exactly when it is a dict whose `enabled` is `false` |
| McpConfig.VerdictReadsOnly | test_mcp_server.py:76-114 | the verdict depends only on `enabled` being false and on the keys the checks read (`url` only without `command`) |
| McpConfig.EnabledOnlyFalseMatters | test_mcp_server.py:79 | any `enabled` other than `false` (`0`, `null` included) gives the verdict the entry would get without the key |
| McpConfig.CommandBranchIgnoresUrl | test_mcp_server.py:85-90 | with `command` present, `url` does not affect the verdict, so an entry with both is not refused for it |
| McpConfig.StdioBranchErrors | test_mcp_server.py:85-89 | a `command` entry fails on non-list `args` exactly when `args` is not a list, then on type exactly when the type is truthy and not "stdio" |
| McpConfig.UrlBranchErrors | test_mcp_server.py:90-97 | a `url` entry fails on a non-string url, then with TypeError on a list or dict type, then on any other type outside the HTTP family (a missing one included), each exactly in those cases |
| McpConfig.NeitherCommandNorUrl | test_mcp_server.py:98-101 | an enabled entry with neither `command` nor `url` is refused, and a disabled one is skipped |
| McpConfig.TypeCheckRedundant | test_mcp_server.py:103-106 | after the branch checks the type is falsy or allowed, so the unknown-type check passes |
| McpConfig.NoUnknownTypeError | test_mcp_server.py:103-106 | no entry is ever refused with the unknown-type error |
| McpConfig.OptionalFieldErrors | test_mcp_server.py:109-114 | after the branch checks, an entry fails on headers, env and cwd, in that order, each exactly when that field is ill-shaped and the earlier ones are not |
| McpConfig.RunFailureSticks | test_mcp_server.py:73-116 | once an entry has raised, the later entries change nothing |
| McpConfig.StoredContents | test_mcp_server.py:116 | the stored pairs have exactly the stored names as keys and, with distinct names, each maps to its stored value |
| McpConfig.RunSuccessNoRaise | test_mcp_server.py:73-116 | a loop that finishes met no raising entry |
| McpConfig.RunNoRaiseSucceeds | test_mcp_server.py:73-116 | a loop that meets no raising entry finishes |
| McpConfig.RunFirstRaise | test_mcp_server.py:73-116 | the loop fails with the error of the first raising entry |
| McpConfig.RunFailureWitness | test_mcp_server.py:73-116 | a failing loop failed at a raising entry with no raising entry before it |
| McpConfig.RunIsStored | test_mcp_server.py:73-116 | with distinct names and no raise, the loop builds exactly the stored pairs in order |
| McpConfig.RunEmptyIffAllContinue | test_mcp_server.py:73-118 | the loop ends with an empty dict exactly when every entry was skipped |
| McpConfig.StepAt | test_mcp_server.py:76-116 | each entry's step raises, continues or stores exactly as its verdict rejects, skips or keeps, and a stored step holds the expanded entry under its name |
| McpConfig.ParseTopLevel | test_mcp_server.py:68-69 | the top-level error occurs exactly when the root is not a dict or its `mcpServers` is not a dict |
| McpConfig.ParseFirstErrorWins | test_mcp_server.py:73-114 | with a valid top level, the call fails with the error of the first invalid entry |
| McpConfig.ParseEntryErrorHasWitness | test_mcp_server.py:73-114 | an entry-level failure comes from an invalid entry with no invalid entry before it |
| McpConfig.ParseNoEnabledServers | test_mcp_server.py:118-119 | the empty-result error occurs exactly when the top level is valid and every entry is disabled |
| McpConfig.ParseSucceedsIff | test_mcp_server.py:61-120 | the call succeeds exactly when the top level is valid, no entry is invalid and some entry is kept; the result is non-empty |
| McpConfig.ParseResult | test_mcp_server.py:71-120 | a successful result holds the kept entries in input order; its keys are exactly the kept names, each mapping to its expanded entry |
| McpServerBuild.Seconds | test_mcp_server.py:168 | `timedelta(seconds=t)` accepts exactly numbers and booleans: a number gives that many seconds, a boolean 1 or 0 |
| McpServerBuild.AddIfTruthy | test_mcp_server.py:132-137 | `if cfg.get(k): params[k] = cfg[k]`; its effect on lookups is `AddIfTruthyGet` |
| McpServerBuild.StdioParameters | test_mcp_server.py:129-137 | the stdio parameter dict; its contents are `StdioParametersContents` |
| McpServerBuild.UrlParameters | test_mcp_server.py:148-153 | the `url` and `headers` part of the HTTP parameter dict; its contents are `UrlParametersContents` |
| McpServerBuild.BuildServer | test_mcp_server.py:126-175 | `build_server`; characterised by `BuildServerDispatch`, `BuildServerFailure` and `BuildServerParameters` |
| McpServerBuild.AddIfTruthyGet | test_mcp_server.py:132-137 | `if cfg.get(k): params[k] = cfg[k]` adds `k` exactly when its value is truthy and changes no other key |
| McpServerBuild.BuildServerDispatch | test_mcp_server.py:126-175 | `command` gives stdio; otherwise type "sse" gives SSE and any other type streamable HTTP; the name is passed on; the session timeout is `cfg["timeout"]` when present (even falsy) and 30 otherwise |
| McpServerBuild.BuildServerFailure | test_mcp_server.py:146-168 | the builder fails exactly for a URL entry missing `type` (checked first) or `url`, or for a streamable-HTTP entry with a truthy non-numeric timeout, and with that error |
| McpServerBuild.BuildServerParameters | test_mcp_server.py:126-175 | each server class gets its own parameter dict: stdio parameters; URL parameters plus the raw timeout for SSE; URL parameters plus the timeout in seconds for streamable HTTP |
| McpServerBuild.StdioParametersContents | test_mcp_server.py:128-137 | stdio parameters: `command` first, then `args`, `env` and `cwd` exactly when truthy, all copied from the entry |
| McpServerBuild.UrlParametersContents | test_mcp_server.py:148-153 | URL parameters: `url`, plus `headers` exactly when truthy, both copied |
| McpServerBuild.SseParametersContents | test_mcp_server.py:151-155 | SSE parameters: `url`, plus `headers` and `timeout` exactly when truthy, all copied |
| McpServerBuild.StreamableHttpParametersContents | test_mcp_server.py:164-168 | streamable-HTTP parameters with a timeout: `url`, `timeout` in seconds, plus `headers` exactly when truthy; with `BuildServerParameters` and `Seconds` the seconds are the entry's timeout |
| McpServerBuild.HttpTypesSurviveExpansion | test_mcp_server.py:47 | the HTTP-family type names are left unchanged by expansion |
| McpServerBuild.BuildKeptEntry | test_mcp_server.py:183-189 | every entry the parser keeps builds without KeyError, as stdio exactly for `command` and as SSE exactly for type "sse"; it fails, with TypeError, exactly for a streamable-HTTP type and a timeout that after expansion is a non-empty string, list or dict |
| McpServerBuild.BuildParsedServers | test_mcp_server.py:183-189 | every entry `main` builds is the expansion of a kept input entry with the same name |
| McpServerBuild.StoredElement | test_mcp_server.py:116 | every stored pair comes from a stored step |

## Left out

- `json.loads` and its `Invalid JSON` error: the parser receives the parsed value tree. JSON text is not modelled.
- The `isinstance(name, str)` check: keys of a parsed JSON object are always strings, so the check does not appear.
- Numbers are reals: the int/float distinction, NaN, infinities and `timedelta` overflow (OverflowError) are not modelled.
- `os.path.expandvars` is modelled as its POSIX implementation only. The Windows variant (`%name%`, `$$`) and a `bytes` argument are not modelled.
- The SDK classes `MCPServerStdio`, `MCPServerSse` and `MCPServerStreamableHttp` are a tag with the arguments they receive. `timedelta` is a number of seconds.
- `main` is modelled only as far as it builds a server for each parsed entry. It opens the servers, lists their tools, runs the agent and prints the output; all of that is asynchronous I/O and is not modelled.
- The environment setup (`load_dotenv`, the `OPENAI_API_KEY` check, `set_default_openai_key`) reads the process environment and calls the SDK, so it is not modelled.
- `main.py`, `test_function_tool.py`, `test_input_image.py` and `test_web_search.py` are not part of this model.
- ParseResult: assumes server names are distinct, because keys of a parsed JSON object (a Python dict) are unique.
- `environ` is a fixed map. The process environment changing during a call is not modelled.
