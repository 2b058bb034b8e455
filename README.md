# ansible-agent request handling, modelled in Dafny

The agent is an HTTP service that runs a shell command (`POST /exec`) or stores an
uploaded file (`PUT /upload`) on the host it is installed on. This project models the
decision logic of its two handlers in `ansible/server.go`:

- **Authentication** (`ValidateHeader`): the token is the second piece of the
  `Authorization` header split on a single space (the whole header when it has no
  space), compared for equality with the configured token.
- **`/exec`** (`ExecCommand`): a fixed order of checks — token (401), empty `command`
  (500), `become` decoded with Go's `strconv.Atoi` (500 on failure) — then, for a
  `multipart/form-data` body, staging of the `stdin` part in a temporary file that is
  written, closed and reopened before the child sees it and removed on every later
  return; then the command line `[sudo -n] <executable> -c <command>` (500 for a become
  method other than `sudo`); then the run, whose outcome is always a 200 answer with
  `status` 0 or 1 and the captured output.
- **`/upload`** (`PutFile`): the same token check, then 500 for a missing `src` part or
  a destination that cannot be created, otherwise 200 with an empty body whether or not
  the copy finished.

Files:

- `wrappers.dfy` — `Option` and `Result`.
- `auth.dfy` — `Auth`: Go's `strings.Split` for a one-character separator, proved to be
  the unique decomposition into separator-free pieces, and `ValidateHeader`.
- `strconv.dfy` — `GoStrconv`: `Atoi` (its short-input fast path and its
  `ParseInt`/`ParseUint` path, with Go's checks and cut-off constants; the length that
  selects the path is counted in characters here, in bytes in Go) characterised as
  "optional sign, digits, value within 64 bits", `Itoa` with the round trip, and
  `Quote` for Atoi's error text.
- `http.dfy` — `Http`: the request (headers, form values, multipart file parts) and the
  response (status code and body: text, the exec result record, or the panic page).
- `handlers.dfy` — `Handlers`: the handlers as functions `Exec` and `Put` of the
  request, the configured token and an oracle for what the operating system does, with
  their properties.
- `agent.dfy` — `Agent`: class `Host` with the file store (`files`, each file with its
  content and whether its write handle is open) and the log of started children
  (`spawned`); `ExecCommand` and `PutFile` carry the handlers out step by step and are
  proved to answer as `Exec`/`Put` decide and to leave the store as they say. In
  particular `ExecCommand` ends with the file store exactly as it began (removal of the
  staged file is attempted on every return path and is assumed to succeed), and its child can only be started on a file whose write
  handle is closed.

The configured token (`AuthToken`, set by main.go only when HTTP authentication is
enabled, `""` otherwise) is a parameter of the handlers. Process start-up, temporary
file naming and I/O failures are inputs: `ExecEnv` gives the name `ioutil.TempFile`
picks (or its error), how copying into it ends, whether reopening fails, and the result
of running a given argument vector with a given stdin content; `UploadEnv` gives the
`os.Create` error and how the copy ends.

Behaviour of the code worth knowing:

- The `Authorization` header is split on the single space character (ansible/server.go:55):
  a tab is not a separator, and `Bearer  tok` (two spaces) presents the empty token.
- When `AuthToken` is empty, a request without an `Authorization` header passes the check
  (ansible/server.go:54-61; main.go:62-63 sets the token only when HTTP authentication is
  enabled).
- A `become` that does not decode is answered with 500 (ansible/server.go:95).
- A multipart `/exec` request without a `stdin` part creates the temporary file
  (ansible/server.go:120), then `io.Copy` from the absent part panics
  (ansible/server.go:126) and the recovery middleware (ansible/server.go:36) answers 500.
  The deferred removal (ansible/server.go:124) still runs, and no child is started.

## Model

| member | source | states |
|---|---|---|
| `Auth.Split` | ansible/server.go:55 | the pieces are separator-free, at least one, join back to the header, and there is one piece exactly when the header has no space |
| `Auth.SplitUnique` | ansible/server.go:55 | any decomposition into separator-free pieces that joins back to the string is the one `Split` returns |
| `Auth.PresentedToken` | ansible/server.go:53-60 | the presented token is space-free; it is the whole header when the header has no space, and a strictly shorter space-free part of it otherwise; `Auth.SchemeHeaderToken` says it is the second field |
| `Auth.ValidateHeader` | ansible/server.go:52-65 | a header that passes never needs a configured token with a space; a header without a space passes exactly when it equals the configured token |
| `Auth.BareHeaderIsToken` | ansible/server.go:56-60 | a header without a space is presented whole as the token |
| `Auth.SchemeHeaderToken` | ansible/server.go:55-58 | in `<scheme> <token>[ <more>]` the presented token is the field after the first space, whatever the scheme and the rest |
| `Auth.PresentedTokenSpaceFree` | ansible/server.go:53-60 | the presented token never contains a space |
| `Auth.SpacedTokenRejectsAll` | ansible/server.go:61-63 | a configured token containing a space rejects every header |
| `Auth.EmptyTokenAdmits` | ansible/server.go:52-65 | with an empty configured token a missing header passes, and so does any header whose second field is empty |
| `Auth.DoubleSpacePresentsEmptyToken` | ansible/server.go:55-58 | `Bearer  tok` presents the empty token |
| `GoStrconv.ParseUint` | ansible/server.go:93 | accepts exactly a non-empty run of digits whose value fits in 64 unsigned bits, with that value; digits that overflow fail as out of range |
| `GoStrconv.ParseInt` | ansible/server.go:93 | accepts exactly an optional sign and digits whose value fits in 64 signed bits, with that value; a well-formed input fails only as out of range |
| `GoStrconv.Atoi` | ansible/server.go:93 | succeeds exactly on an optional sign followed by digits whose value fits in 64 bits, with that value; a well-formed input fails only as out of range; inputs under 19 characters fail only as invalid syntax |
| `GoStrconv.FastPathAgrees` | ansible/server.go:93 | Atoi's short-input path gives the same result as the general path |
| `GoStrconv.AtoiItoa` | ansible/server.go:93 | every 64-bit integer written in decimal reads back as itself |
| `GoStrconv.Quote` | ansible/server.go:95 | the result is enclosed in double quotes, contains no raw ASCII control character, escapes every `"` between the quotes with a backslash, and shows printable ASCII without quotes or backslashes verbatim |
| `GoStrconv.QuoteBodyInjective` | ansible/server.go:95 | two texts whose escaped bodies are equal are equal: each escape reads back as the one character it was written for |
| `GoStrconv.QuoteInjective` | ansible/server.go:95 | the quoted form determines the input, so the error text names the rejected `become` value unambiguously |
| `GoStrconv.AtoiErrorText` | ansible/server.go:95 | the error reads `strconv.Atoi: parsing ` followed by the quoted input, `: ` and `invalid syntax` or `value out of range`; for plain input the quoted input is the input between double quotes |
| `Handlers.ParseBecome` | ansible/server.go:91-101 | an empty `become` is false; otherwise it is accepted exactly when Atoi accepts it and is true exactly when its value is non-zero; a rejection carries Atoi's error |
| `Handlers.ReadParams` | ansible/server.go:81-106 | parameters are read exactly when `command` is non-empty and `become` decodes; an empty command is refused first with its fixed text, then an undecodable `become` with `error decoding 'become' value: ` and Atoi's error; the parameters are the command as sent, the executable or `/bin/sh`, `become`'s decoded value, and the method or `sudo` |
| `Handlers.Argv` | ansible/server.go:142-152 | the vector has 3 or 5 elements, ends with interpreter, `-c`, command, and starts with `sudo -n` exactly when escalating |
| `Handlers.CommandLine` | ansible/server.go:144-152 | a command line is built exactly when there is no escalation or the method is `sudo`, and it is the argument vector of the parameters; otherwise the error names the method |
| `Handlers.ArgvInjective` | ansible/server.go:152 | the vector determines escalation, interpreter and command: the command is one argument, never split or merged |
| `Handlers.Copied` | ansible/server.go:126 | what a copy delivers is a prefix of the data, all of it when the copy does not fail |
| `Handlers.TempCreation` | ansible/server.go:120-123 | a created temporary file has the picked name and did not exist before |
| `Handlers.RunResponse` | ansible/server.go:160-168 | the answer to a run is 200 with status 0 exactly when the run reported no error (else 1), an empty stdin field, and the captured stdout and stderr |
| `Handlers.Launch` | ansible/server.go:139-174 | a child runs exactly when there is no escalation or the method is `sudo`, on the argument vector of the parameters with the given stdin, and the answer is its result; otherwise 500 naming the method; the staged file is passed through for removal |
| `Handlers.Exec` | ansible/server.go:77-175 | 401 exactly when the token check fails, then with the fixed text and nothing staged or run; an empty command is 500 with its text; codes are 200, 401 or 500; a child runs exactly when the answer is 200, only for a valid request, on that request's command line, and the answer reports its result; a valid request whose staging succeeds runs exactly when the become method is supported, and is otherwise refused naming the method; for multipart, an unreadable `stdin` part or a failed creation is 500 with its error, a missing part is the recovered panic, a failed copy or reopen is 500 with its error, none of these runs a child, and the file once created is reported for removal; without multipart nothing is staged and the child has no stdin; with multipart the child's stdin is the whole uploaded part, staged in a file that did not exist |
| `Handlers.ChildArgv` | ansible/server.go:86-152 | the child's vector is `[sudo -n]` when `become` is non-zero, then the executable or `/bin/sh`, `-c`, and the command as sent |
| `Handlers.BadBecomeRefused` | ansible/server.go:92-96 | a `become` that Atoi rejects gives 500 with `error decoding 'become' value: ` and Atoi's error, before anything is staged or run |
| `Handlers.UnsupportedMethodRefused` | ansible/server.go:144-151 | escalation with a method other than `sudo` starts no child and answers 500, naming the method when no staging precedes it |
| `Handlers.ExecDependsOnCommandLine` | ansible/server.go:77-175 | two requests with the same headers, body, refusal and command line are handled alike |
| `Handlers.BecomeMethodIgnored` | ansible/server.go:144-151 | without escalation any become method gives the same outcome |
| `Handlers.DefaultExecutableApplied` | ansible/server.go:86-89 | an empty executable is handled exactly as `/bin/sh` |
| `Handlers.DefaultBecomeMethodApplied` | ansible/server.go:103-106 | an empty become method is handled exactly as `sudo` |
| `Handlers.FailedRunIsDelivered` | ansible/server.go:158-174 | after a run the answer is 200 with status 0 exactly when the run reported no error (else 1), an empty stdin field, and exactly the captured stdout and stderr |
| `Handlers.Put` | ansible/server.go:177-195 | 401 exactly when the token check fails; codes are 200, 401 or 500; a missing `src` part is 500 with `http: no such file`, an unreadable one 500 with its error; a readable part whose destination can be created is written at `dest` (the upload, or the prefix a failed copy delivered) and answered 200 with an empty body; a destination that cannot be created is 500 with the creation error and nothing is written |
| `Handlers.UploadCopyErrorIgnored` | ansible/server.go:193-194 | a copy that breaks off does not change the 200 answer |
| `Agent.BuildCommand` | ansible/server.go:142-152 | appending to an empty vector yields the command line, or the unsupported-method error |
| `Agent.Host.CreateTemp` | ansible/server.go:120-123 | a new empty file open for writing under the picked name, or the error; nothing else changes |
| `Agent.Host.CopyInto` | ansible/server.go:126 | the file gains what the copy delivered and stays open; the copy's error is returned |
| `Agent.Host.Close` | ansible/server.go:127 | the write handle is closed, content kept |
| `Agent.Host.Reopen` | ansible/server.go:132-135 | reopening for reading needs the write handle closed, and reports the open error |
| `Agent.Host.Spawn` | ansible/server.go:154-158 | the child gets the whole content of a closed staged file (or no stdin), is logged, and its result returned; files are untouched |
| `Agent.Host.Remove` | ansible/server.go:124 | the file is gone, nothing else changes |
| `Agent.Host.ExecCommand` | ansible/server.go:77-175 | answers as `Exec` decides, logs exactly the child `Exec` names, and leaves the file store exactly as it found it, so the staged file is removed on every return |
| `Agent.Host.PutFile` | ansible/server.go:177-195 | answers as `Put` decides; the destination is created or truncated and holds what was copied, closed; nothing runs |

## Left out

- `Ping`, `NewServer`, `Serve`, `ServeHTTP` and the logger middleware (ansible/server.go:27-41, 67-75, 197-199): routing and framework wiring. Of the recovery middleware only its effect on the one panicking path is kept (a 500 answer with the panic page, body `Crash`).
- `ConfigureLDAP` and `LdapAuthenticator` (ansible/server.go:43-50): the authenticator's code is not part of this model; it would be one more pass/fail gate before the handlers.
- main.go and conf/config.go: configuration loading, the listener and TLS set-up. The configured token is a parameter of the handlers.
- The JSON encoding of the exec result (ansible/server.go:170-174) is a record here; its error branch cannot be taken for a map of strings and integers, and the replacement of invalid UTF-8 in the encoded output is not modelled.
- Headers and form fields are single-valued maps keyed by canonical names; Go's canonicalisation of header names and multi-valued fields are not modelled, nor are form parse errors, which `FormValue` ignores.
- Temporary file naming, its directory and `ioutil.TempFile`'s retries on a name clash: the oracle picks the name, and a name already in use is a creation error.
- The closing of the reopened stdin handle (ansible/server.go:136) and the write handle left open when the copy panics are not tracked once the temporary file is removed.
- Agent.Host.Remove cannot fail: the error of the deferred removal of the staged file (ansible/server.go:124), which the handler ignores, is not modelled, so a removal that fails and leaves the file behind is not represented.
- Agent.Host.Close cannot fail: the error of closing the staged file after the copy (ansible/server.go:127), which the handler ignores, is not modelled.
- Agent.Host.PutFile closes the destination (ansible/server.go:191) but does not model the error that close may return, which the handler ignores.
- GoStrconv.Atoi takes Go's `int` to be 64 bits wide; a 32-bit build, whose fast path covers inputs shorter than 10 bytes and whose range is 32 bits, is not modelled.
- What the child does to the file system, how long it runs, and concurrency between requests: the model handles one request at a time and the run is an oracle.
- `os.Create` failures other than the empty path are an oracle input; only Linux's message for the empty path is fixed.
- GoStrconv.Quote: characters outside ASCII are written verbatim, where Go escapes those it deems unprintable.
- Go strings are byte sequences; here they are sequences of Unicode characters. Header and form values that are not valid UTF-8 (which `Split`, the token comparison and `Quote`'s `\x` escapes would see byte by byte) are not represented, and `Atoi` picks its fast path by character count rather than byte count; both paths give the same result for every input, so only the path taken differs.
