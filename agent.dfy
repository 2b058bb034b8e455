/**
 * The `/exec` and `/upload` handlers carried out step by step on the host: a file
 * store that temporary and uploaded files live in, and the children started so far.
 * Each handler is proved to answer as `Handlers.Exec` / `Handlers.Put` decide and to
 * leave the store as they say.
 */
module Agent {
  import opened Wrappers
  import opened Http
  import opened Handlers

  /** A file: its content and whether the handle that created it is still open for writing. */
  datatype StoredFile = StoredFile(data: Bytes, writing: bool)

  /** The stdin content a child gets when handed the file at `path`, if any. */
  function StdinOf(files: map<string, StoredFile>, path: Option<string>): Option<Bytes>
    requires path.Some? ==> path.value in files
  {
    if path.Some? then Some(files[path.value].data) else None
  }

  /** Builds the argument vector by appending to an empty slice (ansible/server.go:142-152). */
  method BuildCommand(p: Params) returns (r: Result<seq<string>, string>)
    ensures r == CommandLine(p)
  {
    var cmdArgs: seq<string> := [];
    if p.become {
      if p.becomeMethod == "sudo" {
        cmdArgs := cmdArgs + ["sudo", "-n"];
      } else {
        return Err("unsupported become method '" + p.becomeMethod + "'");
      }
    }
    cmdArgs := cmdArgs + [p.executable, "-c", p.command];
    assert cmdArgs == Argv(p.become, p.executable, p.command);
    return Ok(cmdArgs);
  }

  class Host {
    /** The file system, by path. */
    var files: map<string, StoredFile>
    /** The children started, oldest first. */
    var spawned: seq<Invocation>

    constructor (files: map<string, StoredFile>)
      ensures this.files == files && spawned == []
    {
      this.files := files;
      spawned := [];
    }

    /** `ioutil.TempFile`: creates a new empty file, open for writing, under the name the system picks. */
    method CreateTemp(pick: Result<string, string>) returns (r: Result<string, string>)
      modifies this
      ensures r == TempCreation(pick, old(files).Keys)
      ensures files == if r.Ok? then old(files)[r.value := StoredFile([], true)] else old(files)
      ensures spawned == old(spawned)
    {
      r := TempCreation(pick, files.Keys);
      if r.Ok? {
        files := files[r.value := StoredFile([], true)];
      }
    }

    /** `io.Copy` into a file open for writing; on a fault only a prefix arrives. */
    method CopyInto(name: string, data: Bytes, fault: Option<CopyFault>) returns (err: Option<string>)
      requires name in files && files[name].writing
      modifies this
      ensures files == old(files)[name := StoredFile(old(files)[name].data + Copied(data, fault), true)]
      ensures err == if fault.Some? then Some(fault.value.err) else None
      ensures spawned == old(spawned)
    {
      files := files[name := StoredFile(files[name].data + Copied(data, fault), true)];
      err := if fault.Some? then Some(fault.value.err) else None;
    }

    /** Closes the write handle of a file. */
    method Close(name: string)
      requires name in files
      modifies this
      ensures files == old(files)[name := StoredFile(old(files)[name].data, false)]
      ensures spawned == old(spawned)
    {
      files := files[name := StoredFile(files[name].data, false)];
    }

    /** `os.Open` for reading; the file must already be closed for writing. */
    method Reopen(name: string, openError: Option<string>) returns (err: Option<string>)
      requires name in files && !files[name].writing
      ensures err == openError
    {
      err := openError;
    }

    /**
     * `cmd.Run`: starts a child on `argv` with the file at `stdinPath` (closed for
     * writing) as its stdin, and waits for it.
     */
    method Spawn(argv: seq<string>, stdinPath: Option<string>, run: (seq<string>, Option<Bytes>) -> RunResult)
      returns (out: RunResult)
      requires stdinPath.Some? ==> stdinPath.value in files && !files[stdinPath.value].writing
      modifies this
      ensures files == old(files)
      ensures spawned == old(spawned) + [Invocation(argv, StdinOf(files, stdinPath))]
      ensures out == run(argv, StdinOf(files, stdinPath))
    {
      var stdin := StdinOf(files, stdinPath);
      out := run(argv, stdin);
      spawned := spawned + [Invocation(argv, stdin)];
    }

    /** `os.Remove`. */
    method Remove(name: string)
      modifies this
      ensures files == old(files) - {name}
      ensures spawned == old(spawned)
    {
      files := files - {name};
    }

    /**
     * `ExecCommand`: answers as `Exec` decides, starts exactly the child `Exec` names,
     * and removes the temporary file it staged on every return, so the file store
     * ends as it began.
     */
    method ExecCommand(authToken: string, req: Request, env: ExecEnv) returns (resp: Response)
      modifies this
      ensures resp == Exec(authToken, req, env, old(files).Keys).response
      ensures spawned == old(spawned) + ChildLog(Exec(authToken, req, env, old(files).Keys).child)
      ensures files == old(files)
    {
      if !Authorized(authToken, req) {
        return Response(StatusUnauthorized, Text(AuthFailedText));
      }
      var params := ReadParams(req);
      if params.Err? {
        return Response(StatusInternalServerError, Text(params.error));
      }
      var p := params.value;

      var stdinPath: Option<string> := None;
      if IsMultipart(req) {
        var input := FormFile(req, "stdin");
        if input.FileError? {
          return Response(StatusInternalServerError, Text(input.err + "\n"));
        }
        var created := CreateTemp(env.tempFile);
        if created.Err? {
          return Response(StatusInternalServerError, Text(created.error + "\n"));
        }
        var name := created.value;
        if input.MissingFile? {
          // copying from the absent part panics; the deferred removal still runs
          Remove(name);
          assert files == old(files);
          return Response(StatusInternalServerError, Crash);
        }
        var err := CopyInto(name, input.content, env.stageFault);
        Close(name);
        if err.Some? {
          Remove(name);
          assert files == old(files);
          return Response(StatusInternalServerError, Text(err.value + "\n"));
        }
        err := Reopen(name, env.reopenError);
        if err.Some? {
          Remove(name);
          assert files == old(files);
          return Response(StatusInternalServerError, Text(err.value + "\n"));
        }
        assert files[name].data == input.content;
        stdinPath := Some(name);
      }

      var argv := BuildCommand(p);
      if argv.Err? {
        if stdinPath.Some? {
          Remove(stdinPath.value);
          assert files == old(files);
        }
        return Response(StatusInternalServerError, Text(argv.error));
      }
      var out := Spawn(argv.value, stdinPath, env.run);
      if stdinPath.Some? {
        Remove(stdinPath.value);
        assert files == old(files);
      }
      resp := Response(StatusOK, ExecResult(if out.failed then 1 else 0, "", out.stdout, out.stderr));
    }

    /**
     * `PutFile`: answers as `Put` decides; the destination is created (or truncated)
     * and receives what the copy delivered; nothing else changes and nothing runs.
     */
    method PutFile(authToken: string, req: Request, env: UploadEnv) returns (resp: Response)
      modifies this
      ensures resp == Put(authToken, req, env).response
      ensures files == match Put(authToken, req, env).written
        case None => old(files)
        case Some(w) => old(files)[w.0 := StoredFile(w.1, false)]
      ensures spawned == old(spawned)
    {
      if !Authorized(authToken, req) {
        return Response(StatusUnauthorized, Text(AuthFailedText));
      }
      var dest := FormValue(req, "dest");
      var src := FormFile(req, "src");
      if src.FileError? {
        return Response(StatusInternalServerError, Text(src.err));
      }
      if src.MissingFile? {
        return Response(StatusInternalServerError, Text(MissingFileText));
      }
      if dest == "" {
        return Response(StatusInternalServerError, Text(CreateEmptyPathText));
      }
      if env.createError.Some? {
        return Response(StatusInternalServerError, Text(env.createError.value));
      }
      files := files[dest := StoredFile([], true)];
      var _ := CopyInto(dest, src.content, env.copyFault);
      Close(dest);
      assert [] + Copied(src.content, env.copyFault) == Copied(src.content, env.copyFault);
      resp := Response(StatusOK, Text(""));
    }
  }

  /** The children an outcome starts, as a log entry list. */
  function ChildLog(child: Option<Invocation>): seq<Invocation>
  {
    if child.Some? then [child.value] else []
  }
}
