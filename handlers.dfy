/**
 * The decisions the `/exec` and `/upload` handlers of ansible/server.go take, as
 * functions of the request, the configured token and what the operating system
 * does (an oracle). `Agent.Host` carries them out step by step on a file store.
 */
module Handlers {
  import opened Wrappers
  import opened Http
  import Auth
  import opened GoStrconv

  const AuthFailedText: string := "认证失败，token不合法\n"
  const CommandRequiredText: string := "command is a required parameter\n"
  const DefaultExecutable: string := "/bin/sh"
  const DefaultBecomeMethod: string := "sudo"
  const MultipartFormData: string := "multipart/form-data"

  /** `ValidateHeader` applied to the request's `Authorization` header: the gate of both handlers (ansible/server.go:78, 178). */
  predicate Authorized(authToken: string, req: Request)
  {
    Auth.ValidateHeader(HeaderGet(req, "Authorization"), authToken)
  }

  /** Stdin is staged only for a body whose Content-Type starts with `multipart/form-data` (ansible/server.go:114). */
  predicate IsMultipart(req: Request)
  {
    MultipartFormData <= HeaderGet(req, "Content-Type")
  }

  function OrDefault(value: string, default: string): string
  {
    if value == "" then default else value
  }

  /**
   * The `become` field: absent or empty means no escalation; otherwise it must be an
   * integer as `strconv.Atoi` reads it, and any non-zero value asks for escalation.
   */
  function ParseBecome(arg: string): (r: Result<bool, NumError>)
    ensures r.Ok? <==> arg == "" || (WellFormed(arg) && MinInt64 <= SignedValue(arg) <= MaxInt64)
    ensures r == Ok(true) <==> arg != "" && WellFormed(arg) && MinInt64 <= SignedValue(arg) <= MaxInt64 && SignedValue(arg) != 0
    ensures r.Err? ==> Atoi(arg) == Err(r.error)
  {
    if arg == "" then Ok(false)
    else
      match Atoi(arg)
      case Err(e) => Err(e)
      case Ok(v) => Ok(v != 0)
  }

  /** The parameters of an `/exec` request once defaults are applied. */
  datatype Params = Params(command: string, executable: string, become: bool, becomeMethod: string)

  /**
   * Reading the form (ansible/server.go:81-106): an empty `command` is refused first,
   * then a `become` that does not decode; `executable` and `becomeMethod` default.
   * The error is the response text.
   */
  function ReadParams(req: Request): (r: Result<Params, string>)
    ensures r.Ok? <==> FormValue(req, "command") != "" && ParseBecome(FormValue(req, "become")).Ok?
    ensures FormValue(req, "command") == "" ==> r == Err(CommandRequiredText)
    ensures FormValue(req, "command") != "" && ParseBecome(FormValue(req, "become")).Err? ==>
      r == Err("error decoding 'become' value: "
               + AtoiErrorText(FormValue(req, "become"), ParseBecome(FormValue(req, "become")).error))
    // the command is kept as sent; executable and method fall back to their defaults when empty
    ensures r.Ok? ==> r.value == Params(
      FormValue(req, "command"),
      OrDefault(FormValue(req, "executable"), DefaultExecutable),
      ParseBecome(FormValue(req, "become")).value,
      OrDefault(FormValue(req, "becomeMethod"), DefaultBecomeMethod))
    ensures r.Ok? ==> r.value.executable != "" && r.value.becomeMethod != ""
  {
    var command := FormValue(req, "command");
    if command == "" then Err(CommandRequiredText)
    else
      var executable := OrDefault(FormValue(req, "executable"), DefaultExecutable);
      var becomeArg := FormValue(req, "become");
      match ParseBecome(becomeArg)
      case Err(e) => Err("error decoding 'become' value: " + AtoiErrorText(becomeArg, e))
      case Ok(become) =>
        var becomeMethod := OrDefault(FormValue(req, "becomeMethod"), DefaultBecomeMethod);
        Ok(Params(command, executable, become, becomeMethod))
  }

  /**
   * The argument vector of the child (ansible/server.go:143-152): the interpreter,
   * `-c`, then the command as one unmodified argument, behind `sudo -n` exactly when
   * escalating.
   */
  function Argv(become: bool, executable: string, command: string): (argv: seq<string>)
    ensures |argv| == (if become then 5 else 3)
    ensures argv[|argv| - 1] == command
    ensures argv[|argv| - 2] == "-c"
    ensures argv[|argv| - 3] == executable
    ensures become <==> |argv| == 5 && argv[..2] == ["sudo", "-n"]
  {
    (if become then ["sudo", "-n"] else []) + [executable, "-c", command]
  }

  /**
   * The command line for the parameters, or the error for a become method other than
   * `sudo`; the method is looked at only when escalation is asked for.
   */
  function CommandLine(p: Params): (r: Result<seq<string>, string>)
    ensures r.Ok? <==> !p.become || p.becomeMethod == "sudo"
    ensures r.Err? ==> r.error == "unsupported become method '" + p.becomeMethod + "'"
    ensures r.Ok? ==> r.value == Argv(p.become, p.executable, p.command)
  {
    if p.become && p.becomeMethod != "sudo" then Err("unsupported become method '" + p.becomeMethod + "'")
    else Ok(Argv(p.become, p.executable, p.command))
  }

  /** Different requests never share a command line: argv determines become, interpreter and command. */
  lemma ArgvInjective(b1: bool, e1: string, c1: string, b2: bool, e2: string, c2: string)
    requires Argv(b1, e1, c1) == Argv(b2, e2, c2)
    ensures b1 == b2 && e1 == e2 && c1 == c2
  {
    var a1, a2 := Argv(b1, e1, c1), Argv(b2, e2, c2);
    assert |a1| == |a2|;
    assert a1[|a1| - 1] == a2[|a2| - 1];
    assert a1[|a1| - 3] == a2[|a2| - 3];
  }

  /** What `cmd.Run` reports: whether it returned an error, and the captured output. */
  datatype RunResult = RunResult(failed: bool, stdout: Bytes, stderr: Bytes)

  /** An `io.Copy` that stops with an error after writing `written` bytes. */
  datatype CopyFault = CopyFault(written: nat, err: string)

  /** What reaches the destination when `data` is copied, possibly stopping early. */
  function Copied(data: Bytes, fault: Option<CopyFault>): (r: Bytes)
    ensures r <= data
    ensures fault.None? ==> r == data
  {
    match fault
    case None => data
    case Some(f) => if f.written < |data| then data[..f.written] else data
  }

  /**
   * What the operating system does during an `/exec` request: the name `ioutil.TempFile`
   * picks (or its error), how copying the upload into it ends, whether reopening it
   * fails, and how a child run with a given argument vector and stdin content ends.
   */
  datatype ExecEnv = ExecEnv(
    tempFile: Result<string, string>,
    stageFault: Option<CopyFault>,
    reopenError: Option<string>,
    run: (seq<string>, Option<Bytes>) -> RunResult)

  /** A child process: its argument vector and the content of its stdin, if it has one. */
  datatype Invocation = Invocation(argv: seq<string>, stdin: Option<Bytes>)

  /**
   * The result of an `/exec` request: the response, the child it started (if any)
   * and the temporary file it created (if any), which the handler removes again.
   */
  datatype ExecOutcome = ExecOutcome(response: Response, child: Option<Invocation>, temp: Option<string>)

  function Refuse(code: int, text: string): ExecOutcome
  {
    ExecOutcome(Response(code, Text(text)), None, None)
  }

  /** `ioutil.TempFile` creates its file exclusively: a name already in use cannot be created. */
  function TempCreation(pick: Result<string, string>, live: set<string>): (r: Result<string, string>)
    ensures r.Ok? ==> pick == Ok(r.value) && r.value !in live
  {
    match pick
    case Err(e) => Err(e)
    case Ok(name) => if name in live then Err("open " + name + ": file exists") else Ok(name)
  }

  /** The result object of a finished run (ansible/server.go:160-168). */
  function RunResponse(out: RunResult): (r: Response)
    ensures r.code == StatusOK && r.body.ExecResult?
    ensures r.body.status in {0, 1} && (r.body.status == 0 <==> !out.failed)
    ensures r.body.stdin == "" && r.body.stdout == out.stdout && r.body.stderr == out.stderr
  {
    Response(StatusOK, ExecResult(if out.failed then 1 else 0, "", out.stdout, out.stderr))
  }

  /** From the command line on (ansible/server.go:139-174), with stdin staged or absent. */
  function Launch(p: Params, stdin: Option<Bytes>, temp: Option<string>, env: ExecEnv): (o: ExecOutcome)
    ensures o.temp == temp
    ensures o.child.Some? <==> !p.become || p.becomeMethod == "sudo"
    ensures o.child.Some? ==>
      && o.child.value == Invocation(Argv(p.become, p.executable, p.command), stdin)
      && o.response == RunResponse(env.run(o.child.value.argv, stdin))
    ensures o.child.None? ==>
      o.response == Response(StatusInternalServerError, Text("unsupported become method '" + p.becomeMethod + "'"))
  {
    match CommandLine(p)
    case Err(text) => ExecOutcome(Response(StatusInternalServerError, Text(text)), None, temp)
    case Ok(argv) => ExecOutcome(RunResponse(env.run(argv, stdin)), Some(Invocation(argv, stdin)), temp)
  }

  /**
   * Nothing on the staging path fails: either the body is not multipart, or its
   * `stdin` part is there, the temporary file is created, filled and reopened.
   */
  predicate StagingSucceeds(req: Request, env: ExecEnv, live: set<string>)
  {
    !IsMultipart(req)
    || (FormFile(req, "stdin").File? && TempCreation(env.tempFile, live).Ok?
        && env.stageFault.None? && env.reopenError.None?)
  }

  /**
   * `ExecCommand` (ansible/server.go:77-175) for the configured token, on a host whose
   * existing file names are `live`.
   */
  function Exec(authToken: string, req: Request, env: ExecEnv, live: set<string>): (o: ExecOutcome)
    // authentication comes first and fails with the fixed message, touching nothing
    ensures o.response.code == StatusUnauthorized <==> !Authorized(authToken, req)
    ensures !Authorized(authToken, req) ==> o == Refuse(StatusUnauthorized, AuthFailedText)
    // then the missing command, before any staging or spawning
    ensures Authorized(authToken, req) && FormValue(req, "command") == "" ==> o == Refuse(StatusInternalServerError, CommandRequiredText)
    // every other refusal is an internal error
    ensures o.response.code in {StatusOK, StatusUnauthorized, StatusInternalServerError}
    // a child runs exactly when the answer is 200, and only for a valid request
    ensures o.child.Some? <==> o.response.code == StatusOK
    ensures o.child.Some? ==> Authorized(authToken, req) && ReadParams(req).Ok?
    // the child is the command line for the request, and its result is reported as is
    ensures o.child.Some? ==> CommandLine(ReadParams(req).value) == Ok(o.child.value.argv)
    ensures o.child.Some? ==> o.response == RunResponse(env.run(o.child.value.argv, o.child.value.stdin))
    // without multipart no file is staged and the child has no stdin
    ensures !IsMultipart(req) ==> o.temp.None? && (o.child.Some? ==> o.child.value.stdin.None?)
    // with multipart the child reads the whole uploaded part, staged in a new file
    ensures IsMultipart(req) && o.child.Some? ==>
      o.temp.Some? && FormFile(req, "stdin").File? && o.child.value.stdin == Some(FormFile(req, "stdin").content)
    ensures o.temp.Some? ==> IsMultipart(req) && o.temp.value !in live
    // a valid request whose staging succeeds is run: the only refusal left is the become method
    ensures Authorized(authToken, req) && ReadParams(req).Ok? && StagingSucceeds(req, env, live) ==>
      (o.child.Some? <==> CommandLine(ReadParams(req).value).Ok?)
    ensures (Authorized(authToken, req) && ReadParams(req).Ok? && StagingSucceeds(req, env, live)
             && CommandLine(ReadParams(req).value).Err?) ==>
      o.response == Response(StatusInternalServerError, Text(CommandLine(ReadParams(req).value).error))
    // staging failures answer 500 before any child runs; the file, once created, is reported for removal
    ensures Authorized(authToken, req) && ReadParams(req).Ok? && IsMultipart(req) ==>
      var input := FormFile(req, "stdin");
      var created := TempCreation(env.tempFile, live);
      && (input.FileError? ==> o == Refuse(StatusInternalServerError, input.err + "\n"))
      && (!input.FileError? && created.Err? ==> o == Refuse(StatusInternalServerError, created.error + "\n"))
      && (!input.FileError? && created.Ok? ==> o.temp == Some(created.value))
      && (input.MissingFile? && created.Ok? ==>
            o.response == Response(StatusInternalServerError, Crash) && o.child.None?)
      && (input.File? && created.Ok? && env.stageFault.Some? ==>
            o.response == Response(StatusInternalServerError, Text(env.stageFault.value.err + "\n")) && o.child.None?)
      && (input.File? && created.Ok? && env.stageFault.None? && env.reopenError.Some? ==>
            o.response == Response(StatusInternalServerError, Text(env.reopenError.value + "\n")) && o.child.None?)
  {
    if !Authorized(authToken, req) then Refuse(StatusUnauthorized, AuthFailedText)
    else
      match ReadParams(req)
      case Err(text) => Refuse(StatusInternalServerError, text)
      case Ok(p) =>
        if !IsMultipart(req) then Launch(p, None, None, env)
        else
          var input := FormFile(req, "stdin");
          if input.FileError? then Refuse(StatusInternalServerError, input.err + "\n")
          else
            match TempCreation(env.tempFile, live)
            case Err(e) => Refuse(StatusInternalServerError, e + "\n")
            case Ok(name) =>
              if input.MissingFile? then
                // io.Copy from the nil reader panics; the recovery middleware answers 500
                ExecOutcome(Response(StatusInternalServerError, Crash), None, Some(name))
              else if env.stageFault.Some? then
                ExecOutcome(Response(StatusInternalServerError, Text(env.stageFault.value.err + "\n")), None, Some(name))
              else if env.reopenError.Some? then
                ExecOutcome(Response(StatusInternalServerError, Text(env.reopenError.value + "\n")), None, Some(name))
              else Launch(p, Some(input.content), Some(name), env)
  }

  /**
   * The child's argument vector, in terms of the request's fields: `[sudo -n]` when
   * `become` is non-zero, the executable or `/bin/sh`, `-c`, and the command as sent.
   */
  lemma ChildArgv(authToken: string, req: Request, env: ExecEnv, live: set<string>)
    requires Exec(authToken, req, env, live).child.Some?
    ensures Exec(authToken, req, env, live).child.value.argv == Argv(
      ParseBecome(FormValue(req, "become")).value,
      OrDefault(FormValue(req, "executable"), DefaultExecutable),
      FormValue(req, "command"))
  {
  }

  /** A `become` that `Atoi` rejects is refused, naming Atoi's error, before anything is staged or run. */
  lemma BadBecomeRefused(authToken: string, req: Request, env: ExecEnv, live: set<string>)
    requires Authorized(authToken, req) && FormValue(req, "command") != ""
    requires FormValue(req, "become") != "" && Atoi(FormValue(req, "become")).Err?
    ensures Exec(authToken, req, env, live) == Refuse(StatusInternalServerError,
      "error decoding 'become' value: " + AtoiErrorText(FormValue(req, "become"), Atoi(FormValue(req, "become")).error))
  {
  }

  /**
   * An unsupported become method is refused once escalation is asked for; no child runs,
   * and a file staged before the check is still reported for removal.
   */
  lemma UnsupportedMethodRefused(authToken: string, req: Request, env: ExecEnv, live: set<string>)
    requires Authorized(authToken, req) && FormValue(req, "command") != ""
    requires ParseBecome(FormValue(req, "become")) == Ok(true)
    requires FormValue(req, "becomeMethod") !in {"", "sudo"}
    ensures var o := Exec(authToken, req, env, live);
      && o.child.None?
      && o.response.code == StatusInternalServerError
      && (!IsMultipart(req) ==> o.response.body == Text("unsupported become method '" + FormValue(req, "becomeMethod") + "'"))
  {
  }

  function WithForm(req: Request, key: string, value: string): Request
  {
    req.(form := req.form[key := value])
  }

  /**
   * `Exec` looks at a request only through its headers, its multipart body, the
   * refusal `ReadParams` gives and the command line the parameters make.
   */
  lemma ExecDependsOnCommandLine(authToken: string, a: Request, b: Request, env: ExecEnv, live: set<string>)
    requires a.header == b.header && a.multipart == b.multipart
    requires ReadParams(a).Err? <==> ReadParams(b).Err?
    requires ReadParams(a).Err? ==> ReadParams(a) == ReadParams(b)
    requires ReadParams(a).Ok? ==> CommandLine(ReadParams(a).value) == CommandLine(ReadParams(b).value)
    ensures Exec(authToken, a, env, live) == Exec(authToken, b, env, live)
  {
    assert HeaderGet(a, "Authorization") == HeaderGet(b, "Authorization");
    assert IsMultipart(a) == IsMultipart(b);
    assert FormFile(a, "stdin") == FormFile(b, "stdin");
  }

  /** Without escalation the become method is never looked at, whatever its value. */
  lemma BecomeMethodIgnored(authToken: string, req: Request, env: ExecEnv, live: set<string>, m: string)
    requires ParseBecome(FormValue(req, "become")) == Ok(false)
    ensures Exec(authToken, WithForm(req, "becomeMethod", m), env, live) == Exec(authToken, req, env, live)
  {
    var req' := WithForm(req, "becomeMethod", m);
    assert FormValue(req', "command") == FormValue(req, "command");
    assert FormValue(req', "become") == FormValue(req, "become");
    assert FormValue(req', "executable") == FormValue(req, "executable");
    ExecDependsOnCommandLine(authToken, req', req, env, live);
  }

  /** An empty `executable` behaves exactly as `/bin/sh`. */
  lemma DefaultExecutableApplied(authToken: string, req: Request, env: ExecEnv, live: set<string>)
    ensures Exec(authToken, WithForm(req, "executable", ""), env, live)
         == Exec(authToken, WithForm(req, "executable", DefaultExecutable), env, live)
  {
    var a, b := WithForm(req, "executable", ""), WithForm(req, "executable", DefaultExecutable);
    assert FormValue(a, "command") == FormValue(b, "command");
    assert FormValue(a, "become") == FormValue(b, "become");
    assert FormValue(a, "becomeMethod") == FormValue(b, "becomeMethod");
    ExecDependsOnCommandLine(authToken, a, b, env, live);
  }

  /** An empty `becomeMethod` behaves exactly as `sudo`. */
  lemma DefaultBecomeMethodApplied(authToken: string, req: Request, env: ExecEnv, live: set<string>)
    ensures Exec(authToken, WithForm(req, "becomeMethod", ""), env, live)
         == Exec(authToken, WithForm(req, "becomeMethod", DefaultBecomeMethod), env, live)
  {
    var c, d := WithForm(req, "becomeMethod", ""), WithForm(req, "becomeMethod", DefaultBecomeMethod);
    assert FormValue(c, "command") == FormValue(d, "command");
    assert FormValue(c, "become") == FormValue(d, "become");
    assert FormValue(c, "executable") == FormValue(d, "executable");
    ExecDependsOnCommandLine(authToken, c, d, env, live);
  }

  /** A command that fails or cannot start is still a delivered result: 200 with status 1. */
  lemma FailedRunIsDelivered(authToken: string, req: Request, env: ExecEnv, live: set<string>)
    requires Exec(authToken, req, env, live).child.Some?
    ensures var o := Exec(authToken, req, env, live);
      var out := env.run(o.child.value.argv, o.child.value.stdin);
      && o.response.code == StatusOK
      && o.response.body.ExecResult?
      && (o.response.body.status == 0 <==> !out.failed)
      && o.response.body.status in {0, 1}
      && o.response.body.stdin == ""
      && o.response.body.stdout == out.stdout
      && o.response.body.stderr == out.stderr
  {
  }

  /** What the operating system does during an `/upload` request. */
  datatype UploadEnv = UploadEnv(createError: Option<string>, copyFault: Option<CopyFault>)

  /** The result of an `/upload` request: the response and the file it wrote, if any. */
  datatype PutOutcome = PutOutcome(response: Response, written: Option<(string, Bytes)>)

  /** `os.Create("")` fails on Linux with this error. */
  const CreateEmptyPathText: string := "open : no such file or directory"

  /** `PutFile` (ansible/server.go:177-195). */
  function Put(authToken: string, req: Request, env: UploadEnv): (o: PutOutcome)
    ensures o.response.code == StatusUnauthorized <==> !Authorized(authToken, req)
    ensures !Authorized(authToken, req) ==> o == PutOutcome(Response(StatusUnauthorized, Text(AuthFailedText)), None)
    ensures o.response.code in {StatusOK, StatusUnauthorized, StatusInternalServerError}
    ensures o.written.Some? <==> o.response.code == StatusOK
    ensures o.written.Some? ==> o.response.body == Text("")
    // the destination is the `dest` field; what lands there is the upload or, if copying broke off, a prefix of it
    ensures o.written.Some? ==>
      && FormFile(req, "src").File?
      && o.written.value.0 == FormValue(req, "dest") != ""
      && o.written.value.1 == Copied(FormFile(req, "src").content, env.copyFault)
    ensures Authorized(authToken, req) && !FormFile(req, "src").File? ==> o.response.code == StatusInternalServerError
    ensures Authorized(authToken, req) && FormFile(req, "src").MissingFile? ==>
      o == PutOutcome(Response(StatusInternalServerError, Text(MissingFileText)), None)
    ensures Authorized(authToken, req) && FormFile(req, "src").FileError? ==>
      o == PutOutcome(Response(StatusInternalServerError, Text(FormFile(req, "src").err)), None)
    // a readable upload to a creatable destination is written and answered 200, whatever the copy does
    ensures (Authorized(authToken, req) && FormFile(req, "src").File? && FormValue(req, "dest") != ""
             && env.createError.None?) ==>
      o == PutOutcome(Response(StatusOK, Text("")),
                      Some((FormValue(req, "dest"), Copied(FormFile(req, "src").content, env.copyFault))))
    // a destination that cannot be created is 500 with the creation error, and nothing is written
    ensures Authorized(authToken, req) && FormFile(req, "src").File? && FormValue(req, "dest") == "" ==>
      o == PutOutcome(Response(StatusInternalServerError, Text(CreateEmptyPathText)), None)
    ensures (Authorized(authToken, req) && FormFile(req, "src").File? && FormValue(req, "dest") != ""
             && env.createError.Some?) ==>
      o == PutOutcome(Response(StatusInternalServerError, Text(env.createError.value)), None)
  {
    if !Authorized(authToken, req) then PutOutcome(Response(StatusUnauthorized, Text(AuthFailedText)), None)
    else
      var dest := FormValue(req, "dest");
      match FormFile(req, "src")
      case FileError(e) => PutOutcome(Response(StatusInternalServerError, Text(e)), None)
      case MissingFile => PutOutcome(Response(StatusInternalServerError, Text(MissingFileText)), None)
      case File(data) =>
        if dest == "" then PutOutcome(Response(StatusInternalServerError, Text(CreateEmptyPathText)), None)
        else if env.createError.Some? then PutOutcome(Response(StatusInternalServerError, Text(env.createError.value)), None)
        else PutOutcome(Response(StatusOK, Text("")), Some((dest, Copied(data, env.copyFault))))
  }

  /** The copy error is ignored: an upload that breaks off still answers 200 with an empty body. */
  lemma UploadCopyErrorIgnored(authToken: string, req: Request, env: UploadEnv, fault: CopyFault)
    requires Put(authToken, req, env).response.code == StatusOK
    ensures Put(authToken, req, env.(copyFault := Some(fault))).response == Response(StatusOK, Text(""))
  {
  }
}
