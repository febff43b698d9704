# iptime WOL clients, modelled in Dafny

This project models the decision logic of a command-line Wake-on-LAN tool
for ipTIME routers. The tool logs in to a router's web management UI, lists
the PCs registered there or asks the router to wake one, and then logs out.
Routers run one of two incompatible web UIs:

- The **old UI** takes a form login that returns a session id. Later GETs
  carry that id in an `efm_session_id` cookie and get plain text back.
- The **new UI** takes JSON calls to one service endpoint and answers with
  an envelope `{result?, error?}`.

A **version detector** probes `<base>/ui` to tell the two UIs apart. A
**facade** logs in with the matching client and forwards every later call
to it.

Every HTTP exchange is an input to the model. The old-UI client and the
new-UI client each take a function that gives the router's answer to a
request. Each operation returns the request it issued, if it issued one,
next to its result. That is how the model states "no request without a
session" and "the facade routes only to the client chosen at login". The
version probe's outcome is an input value.

Files, one module each:

- `http.dfy` (`Http`): status codes, URLs kept symbolic, and transport outcomes.
- `interface.dfy` (`Interface`): `PcInfo`, the six-octet `Mac6`, the five
  error kinds and the `Result` type.
- `rust_str.dfy` (`RustStr`): Rust's `split`, `split_terminator`, `lines`
  and `contains`, with their round-trip lemmas.
- `version_detector.dfy` (`VersionDetector`): status to version.
- `old_ui.dfy` (`OldUiClient`): login status rules, the `mac;name` list
  parser, the `fail` check, and the `Client` class with its session guard.
- `new_ui.dfy` (`NewUiClient`): envelope interpretation and the `Client` class.
- `clients.dfy` (`Clients`): the facade.

Three behaviours of the code that the model keeps as they are:

- A rejected new-UI login is reported as Server, never as Auth: any non-null
  `error` member in the login envelope gives Server.
- A new-UI `mac` that does not parse makes the whole envelope fail to
  decode, so the error is the transport library's decode error (`Reqwest`),
  not Parsing.
- An old-UI list line keeps only its first two `split_terminator` fields.
  So `mac;name;x` lists `name`, `mac;;` lists an empty name, and `mac;` fails.

## Model

| member | source | states |
|---|---|---|
| `RustStr.Split` | src/clients/old_ui.rs:158 | `split` gives at least one piece, and no piece holds the separator |
| `RustStr.JoinSplit` | src/clients/old_ui.rs:158 | joining the pieces of a split with the separator gives back the original string |
| `RustStr.SplitJoin` | src/clients/old_ui.rs:158 | splitting pieces that were joined (none holding the separator) gives back the same pieces in order |
| `RustStr.SplitWithoutSep` | src/clients/old_ui.rs:158 | a string without the separator splits into itself alone |
| `RustStr.SplitAtFirstSep` | src/clients/old_ui.rs:158 | the first separator ends the first piece, and the rest splits independently |
| `RustStr.SplitHead` | src/clients/old_ui.rs:158-159 | the first piece is the text up to the first separator; it is the whole string exactly when there is one piece |
| `RustStr.SplitLast` | src/clients/old_ui.rs:158 | the last piece of a split is empty exactly when the string is empty or ends with the separator |
| `RustStr.SplitTerminator` | src/clients/old_ui.rs:158 | `split_terminator` has no pieces exactly for the empty string, no piece holds the separator, and it is `split` without the empty last piece that an empty string or a trailing separator leaves |
| `RustStr.Lines` | src/clients/old_ui.rs:155-156 | `lines` gives no lines exactly for the empty text, and no line holds a `\n` |
| `RustStr.LinesOfText` | src/clients/old_ui.rs:155-156 | lines joined with `\n`, with or without a final `\n`, come back as exactly those lines |
| `RustStr.LinesOfCrlfText` | src/clients/old_ui.rs:155-156 | lines joined with `\r\n`, with or without a final `\r\n`, come back as exactly those lines: one `\r` is removed before each `\n`, and any other `\r` is kept |
| `RustStr.ContainsSpec` | src/clients/old_ui.rs:193 | `contains` is true exactly when the pattern occurs at some index |
| `VersionDetector.DetectVersion` | src/clients/version_detector.rs:7-23 | a version exactly when a status was received: 2xx gives the new UI, any other status the old UI; a failed URL join or a transport failure gives no version |
| `OldUiClient.LoginOutcome` | src/clients/old_ui.rs:104-113 | success exactly on status 200 with a readable body, and then the session id is the body text; Auth exactly on 502; Server on any other status; transport failures pass through |
| `OldUiClient.ParseLine` | src/clients/old_ui.rs:157-166 | a list line fails only with Parsing |
| `OldUiClient.ParseLineWithoutSemicolon` | src/clients/old_ui.rs:158-161 | a line with no `;`, the empty line included, fails with Parsing |
| `OldUiClient.ParseLineAtFirstSemicolon` | src/clients/old_ui.rs:158-165 | with the first `;` at k, the line parses exactly when the text before it parses as an address and text follows it; the address is then that parse, and the name is the text up to the next `;` |
| `OldUiClient.ParseEntries` | src/clients/old_ui.rs:155-167 | all-or-nothing: success exactly when every line parses, with one PC per line in line order; otherwise Parsing and no partial list |
| `OldUiClient.ParseWolList` | src/clients/old_ui.rs:153-156 | an empty body lists no PCs |
| `OldUiClient.EntryLineParses` | src/clients/old_ui.rs:157-165 | a well-formed `mac;name` line parses to exactly that name and parsed address |
| `OldUiClient.ParseWolListOfBody` | src/clients/old_ui.rs:155-167 | a body of N well-formed `mac;name` lines, ended by `\n` or by `\r\n`, with or without a final line ending, lists exactly N PCs in line order, each with its line's parsed address and name |
| `OldUiClient.WolShowOutcome` | src/clients/old_ui.rs:147-169 | the list answer's status is ignored: transport and body-read failures pass through, and otherwise the body is parsed as the list |
| `OldUiClient.SignalOutcome` | src/clients/old_ui.rs:185-197 | Server exactly when the body contains `fail` (case-sensitive); success otherwise, whatever the status |
| `OldUiClient.SignalFailIsCaseSensitive` | src/clients/old_ui.rs:193-197 | a body reading "failed to wake" fails with Server under status 200, while "FAILED" succeeds |
| `OldUiClient.LogoutOutcome` | src/clients/old_ui.rs:125-131 | success exactly when a response arrives; status and body are ignored |
| `OldUiClient.Client.constructor` | src/clients/old_ui.rs:11-15 | the client holds the given service URL and optional session id |
| `OldUiClient.Client.ListPc` | src/clients/old_ui.rs:36-45 | without a session: Auth and no request; with one: the `wol_list` GET carrying the session cookie, with its answer parsed |
| `OldUiClient.Client.SendWolPacket` | src/clients/old_ui.rs:47-54 | without a session: Auth and no request; with one: the `wakeup` GET for the target carrying the session cookie, with its answer checked for `fail` |
| `OldUiClient.Client.Logout` | src/clients/old_ui.rs:56-61 | consumes the client; without a session: Auth and no request; with one: the logout GET carrying the session cookie |
| `OldUiClient.Login` | src/clients/old_ui.rs:20-32 | Init and no request if the HTTP client cannot be built; otherwise the login form POST, and on success a fresh client holding the base URL and `Some` of the session id; otherwise the login error |
| `NewUiClient.Acknowledge` | src/clients/new_ui.rs:109-114 | success exactly when an envelope arrives without a non-null `error`, whatever `result` holds; Server exactly when a non-null `error` is present; never Auth |
| `NewUiClient.DecodePcs` | src/clients/new_ui.rs:133-140 | decoding succeeds exactly when every `mac` parses, keeping order with name = `pcname`; otherwise a decode error |
| `NewUiClient.DecodeShowResult` | src/clients/new_ui.rs:154 | decoding `result` fails, with the decode error, exactly when it is present and is neither `null` nor a list of PCs, or is a list with an unparseable `mac`; absent and `null` both give no list; a list gives the decoded PCs |
| `NewUiClient.ShowOutcome` | src/clients/new_ui.rs:154-163 | any decode failure of `result`, a value of the wrong shape or an unparseable `mac`, gives the decode error, even when `error` is present too; Server when `error` is present even beside a result, and Server when `result` is absent; otherwise the listed PCs, in order |
| `NewUiClient.Client.constructor` | src/clients/new_ui.rs:10-13 | the client holds the given service endpoint |
| `NewUiClient.Client.ListPc` | src/clients/new_ui.rs:34-38 | with no local session check, a `wol/show` call to the service endpoint, with its envelope interpreted as a list |
| `NewUiClient.Client.SendWolPacket` | src/clients/new_ui.rs:40-42 | a `wol/signal` call for the target to the service endpoint, acknowledged by its envelope |
| `NewUiClient.Client.Logout` | src/clients/new_ui.rs:44-46 | consumes the client; a `session/logout` call to the service endpoint, acknowledged by its envelope |
| `NewUiClient.Login` | src/clients/new_ui.rs:18-83 | Init and no request if the HTTP client cannot be built; otherwise a `session/login` call with the credentials to `<base>/cgi/service.cgi`, and on success a fresh client holding that endpoint |
| `Clients.Login` | src/clients/mod.rs:37-53 | no detected version: InvalidVersion and no login request; a detected version: only that client's login request, its error unchanged in WolError, and its client under the matching tag |
| `Clients.ListPc` | src/clients/mod.rs:56-61 | only the held client's backend gets a request, and the result is that client's, unchanged |
| `Clients.SendWolPacket` | src/clients/mod.rs:63-68 | only the held client's backend gets a request, and the result is that client's, unchanged |
| `Clients.Logout` | src/clients/mod.rs:70-75 | only the held client's backend gets a request, the result is that client's, unchanged, and the held client is consumed |

## Left out

- HTTP transport and async execution are out of scope. Each exchange is the
  value a `net` function gives for a request, and the version probe is an
  input value. Transport errors come in three kinds: send, body read and
  decode.
- Building the HTTP client (`build_client`) is a boolean input `builds`. Its
  headers, user agent and cookie store are library configuration.
- The new UI's cookie jar is not modelled. It is the only session state that
  client has.
- JSON encoding and decoding are abstracted. A reply is a decoded envelope or
  "not an envelope". A JSON value is `null`, an array of `{mac, pcname}`
  objects, or some other value. The shared string deserializer (`serde_util`)
  is not part of this model.
- MAC text parsing is the parameter `parseMac`. MAC formatting and the
  percent-encoding of the wake-up query are not modelled: requests carry the
  address itself, so no address round trip is claimed.
- URL joining is kept symbolic, so neither its result nor the panic of an
  `unwrap` on a failed join is modelled.
- The two traits of `src/interface.rs` are not Dafny traits. Each client
  class has the methods they require. A ghost flag `loggedOut` stands for
  `logout` taking the client by value: only `Logout` sets it, and every
  operation requires it clear. `ListPc` and `SendWolPacket` modify nothing,
  so the client stays usable after them and keeps its variant.
- The clients' private `PcInfo` records and their `From` conversions are
  only field renamings. The model builds `Interface.PcInfo` directly.
- The CLI (`src/main.rs`, `src/command_parser.rs`) is left out: argument
  parsing, printing and error-context wrapping.
