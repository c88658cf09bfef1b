/** The create command (cmd/create.go): for each name it derives the project
    directory, creates that directory when it is missing, writes an empty
    file into it and, when asked, opens the file.

    What the operating system answers is left to CreateEnv: the home
    directory, and which mkdir, write and open-script calls fail. */
module CreateCmd {
  import opened Outcomes
  import opened FilePath
  import opened Host
  import opened Root

  /** The host, the home directory (None when os.UserHomeDir fails) and the
      calls that fail: os.Mkdir of a directory, os.WriteFile of a file, and
      the open_dir.sh script run for a file. */
  datatype CreateEnv = CreateEnv(
    os: Os,
    home: Option<string>,
    mkdirFails: string -> bool,
    writeFails: string -> bool,
    scriptFails: string -> bool)

  /** What createFile returns when it does not panic: nil or an error. */
  datatype FileReturn = NoError | ReturnedError

  /** createDir, as a function of the world before it: the directory and
      the new world, or the panic of getDirPath or of os.Mkdir. */
  function CreateDirSpec(w: World, name: string, env: CreateEnv): (World, Result<string>)
  {
    match DirPath(name, env.os, env.home)
    case Panic(f) => (w, Panic(f))
    case Ok(path) =>
      if path in w.paths then (w, Ok(path))
      else if env.mkdirFails(path) then (w, Panic(MkdirError))
      else (w.(paths := w.paths + {path}), Ok(path))
  }

  /** createDir. */
  method CreateDir(p: Process, name: string, env: CreateEnv) returns (r: Result<string>)
    modifies p
    ensures (p.Snapshot(), r) == CreateDirSpec(old(p.Snapshot()), name, env)
  {
    var path := DirPath(name, env.os, env.home);
    if path.Panic? {
      return path;
    }
    if path.value !in p.paths {
      if env.mkdirFails(path.value) {
        return Panic(MkdirError);
      }
      p.AddPath(path.value);
    }
    r := path;
  }

  /** The file createFile writes: the directory followed by the name. */
  function FilePathIn(dir: string, name: string): string
  {
    dir + name
  }

  /** createFile, as a function of the world before it. */
  function CreateFileSpec(w: World, name: string, open: bool, terminal: bool, env: CreateEnv): (World, Result<FileReturn>)
  {
    var (w1, dir) := CreateDirSpec(w, name, env);
    match dir
    case Panic(f) => (w1, Panic(f))
    case Ok(d) =>
      var file := FilePathIn(d, name);
      if env.writeFails(file) then (w1, Ok(ReturnedError))
      else
        var w2 := w1.(paths := w1.paths + {file});
        if open || (terminal && env.os == Windows) then
          var w3 := w2.(spawned := w2.spawned + [OpenWithApp(file)]);
          (w3.(messages := w3.messages + [FileCreated(file)]), Ok(NoError))
        else if terminal then
          var w3 := w2.(spawned := w2.spawned + [OpenInTerminal(d, name)]);
          if env.scriptFails(file) then (w3, Ok(ReturnedError))
          else (w3.(messages := w3.messages + [FileCreated(file)]), Ok(NoError))
        else (w2.(messages := w2.messages + [FileCreated(file)]), Ok(NoError))
  }

  /** createFile. */
  method CreateFile(p: Process, name: string, open: bool, terminal: bool, env: CreateEnv)
    returns (r: Result<FileReturn>)
    modifies p
    ensures (p.Snapshot(), r) == CreateFileSpec(old(p.Snapshot()), name, open, terminal, env)
  {
    var dir := CreateDir(p, name, env);
    if dir.Panic? {
      return Panic(dir.fault);
    }
    var file := FilePathIn(dir.value, name);
    if env.writeFails(file) {
      return Ok(ReturnedError);
    }
    p.AddPath(file);
    if open || (terminal && env.os == Windows) {
      p.Spawn(OpenWithApp(file));
    } else if terminal {
      p.Spawn(OpenInTerminal(dir.value, name));
      if env.scriptFails(file) {
        return Ok(ReturnedError);
      }
    }
    p.Println(FileCreated(file));
    r := Ok(NoError);
  }

  /** checkAndRunCreate, as a function of the world before it. */
  function CheckAndRunCreateSpec(w: World, file: string, open: bool, terminal: bool, env: CreateEnv): (World, Outcome)
  {
    match HasExtension(file)
    case Panic(f) => (w, Panicked(f))
    case Ok(has) =>
      if has then AfterGuard(w, file, open, terminal, env)
      else (w.(messages := w.messages + [CreateNeedsExtension]), Returned)
  }

  /** The part of checkAndRunCreate after the extension guard has passed. */
  function AfterGuard(w: World, file: string, open: bool, terminal: bool, env: CreateEnv): (World, Outcome)
  {
    var (w1, r) := CreateFileSpec(w, file, open, terminal, env);
    match r
    case Panic(f) => (w1, Panicked(f))
    case Ok(NoError) => (w1, Returned)
    case Ok(ReturnedError) => (w1.(messages := w1.messages + [CouldNotCreate(file)]), Panicked(CreateError))
  }

  /** checkAndRunCreate. */
  method CheckAndRunCreate(p: Process, file: string, open: bool, terminal: bool, env: CreateEnv)
    returns (outcome: Outcome)
    modifies p
    ensures (p.Snapshot(), outcome) == CheckAndRunCreateSpec(old(p.Snapshot()), file, open, terminal, env)
  {
    var has := HasExtension(file);
    HasExtensionIff(file);
    if has.Panic? {
      return Panicked(has.fault);
    }
    if has.value {
      var r := CreateFile(p, file, open, terminal, env);
      if r.Panic? {
        return Panicked(r.fault);
      }
      if r.value == ReturnedError {
        p.Println(CouldNotCreate(file));
        return Panicked(CreateError);
      }
      outcome := Returned;
    } else {
      // The source prints the "must have an extension" line here; the
      // branch is dead because hasExtension never answers false.
      assert false;
    }
  }

  /** The loop over several arguments: checkAndRunCreate on each in order
      with both flags off, until one of them panics. */
  function BatchSpec(w: World, args: seq<string>, env: CreateEnv): (World, Outcome)
    decreases |args|
  {
    if args == [] then (w, Returned)
    else
      var (w1, o) := BatchSpec(w, args[..|args| - 1], env);
      if o != Returned then (w1, o)
      else CheckAndRunCreateSpec(w1, args[|args| - 1], false, false, env)
  }

  /** createCmd's Run: several arguments go through the loop with both flags
      off; a single one gets the -o and -t flags. Cobra has already refused
      an empty argument list. */
  function CreateCommandSpec(w: World, args: seq<string>, open: bool, terminal: bool, env: CreateEnv): (World, Outcome)
    requires |args| >= 1
  {
    if |args| > 1 then BatchSpec(w, args, env)
    else CheckAndRunCreateSpec(w, args[0], open, terminal, env)
  }

  /** Once a prefix of the batch has panicked, the rest is never reached. */
  lemma {:induction false} BatchStopsAtPanic(w: World, args: seq<string>, i: nat, env: CreateEnv)
    requires i <= |args|
    requires BatchSpec(w, args[..i], env).1 != Returned
    ensures BatchSpec(w, args, env) == BatchSpec(w, args[..i], env)
    decreases |args|
  {
    if i < |args| {
      assert args[..|args| - 1][..i] == args[..i];
      BatchStopsAtPanic(w, args[..|args| - 1], i, env);
    } else {
      assert args[..i] == args;
    }
  }

  /** createCmd's Run. */
  method CreateCommand(p: Process, args: seq<string>, open: bool, terminal: bool, env: CreateEnv)
    returns (outcome: Outcome)
    requires |args| >= 1
    modifies p
    ensures (p.Snapshot(), outcome) == CreateCommandSpec(old(p.Snapshot()), args, open, terminal, env)
  {
    if |args| > 1 {
      outcome := Returned;
      var i := 0;
      while i < |args|
        invariant 0 <= i <= |args|
        invariant outcome == Returned
        invariant (p.Snapshot(), outcome) == BatchSpec(old(p.Snapshot()), args[..i], env)
      {
        assert args[..i + 1][..i] == args[..i];
        outcome := CheckAndRunCreate(p, args[i], false, false, env);
        i := i + 1;
        if outcome != Returned {
          BatchStopsAtPanic(old(p.Snapshot()), args, i, env);
          return;
        }
      }
      assert args[..i] == args;
    } else {
      outcome := CheckAndRunCreate(p, args[0], open, terminal, env);
    }
  }

  /** The file createFile writes for name, once the directory is known. */
  function TargetFile(name: string, env: CreateEnv): Result<string>
  {
    match DirPath(name, env.os, env.home)
    case Panic(f) => Panic(f)
    case Ok(d) => Ok(FilePathIn(d, name))
  }

  /** createDir touches only the set of paths. When it returns, the
      directory is getDirPath(name) and exists; it was added only if it was
      missing. When it panics, nothing has changed: the failing call is
      getDirPath, or os.Mkdir of a missing directory. */
  lemma CreateDirResult(w: World, name: string, env: CreateEnv)
    ensures var (w', r) := CreateDirSpec(w, name, env);
      var dir := DirPath(name, env.os, env.home);
      w' == w.(paths := w'.paths) &&
      (r.Ok? ==> dir.Ok? && r.value == dir.value && w'.paths == w.paths + {dir.value}) &&
      (r.Ok? && dir.value in w.paths ==> w'.paths == w.paths) &&
      (r.Panic? ==> (w' == w &&
        ((dir.Panic? && r == dir) || (dir.Ok? && dir.value !in w.paths && env.mkdirFails(dir.value) && r == Panic(MkdirError)))))
  {
  }

  /** createDir is idempotent: once it has returned a directory, calling it
      again returns the same directory and changes nothing. */
  lemma CreateDirIdempotent(w: World, name: string, env: CreateEnv)
    requires CreateDirSpec(w, name, env).1.Ok?
    ensures var (w', r) := CreateDirSpec(w, name, env);
      CreateDirSpec(w', name, env) == (w', r)
  {
    CreateDirResult(w, name, env);
  }

  /** The children createFile starts for the -o and -t flags: the preferred
      application when -o is given (or -t on Windows), the terminal script
      for -t elsewhere, nothing otherwise. */
  function Openers(os: Os, open: bool, terminal: bool, dir: string, name: string): (r: seq<Child>)
    ensures |r| <= 1
    ensures r == [] <==> !open && !terminal
  {
    if open || (terminal && os == Windows) then [OpenWithApp(FilePathIn(dir, name))]
    else if terminal then [OpenInTerminal(dir, name)]
    else []
  }

  /** createFile writes getDirPath(name) + name. When the write succeeds
      that path exists afterwards, next to the directory; on success the
      only children are the openers and the only line is the file's path.
      A failed write creates no file, starts nothing and prints nothing. */
  lemma CreateFileResult(w: World, name: string, open: bool, terminal: bool, env: CreateEnv)
    requires CreateFileSpec(w, name, open, terminal, env).1.Ok?
    ensures var (w', r) := CreateFileSpec(w, name, open, terminal, env);
      var dir := DirPath(name, env.os, env.home).value;
      var file := TargetFile(name, env).value;
      DirPath(name, env.os, env.home).Ok? && TargetFile(name, env).Ok? && w'.cwd == w.cwd &&
      (env.writeFails(file) ==>
        r == Ok(ReturnedError) && w'.paths == w.paths + {dir} &&
        w'.spawned == w.spawned && w'.messages == w.messages) &&
      (!env.writeFails(file) ==>
        w'.paths == w.paths + {dir, file} &&
        w'.spawned == w.spawned + Openers(env.os, open, terminal, dir, name)) &&
      (r == Ok(NoError) <==>
        !env.writeFails(file) && !(terminal && !open && env.os != Windows && env.scriptFails(file))) &&
      (r == Ok(NoError) ==> w'.messages == w.messages + [FileCreated(file)]) &&
      (r == Ok(ReturnedError) ==> w'.messages == w.messages)
  {
    CreateDirResult(w, name, env);
  }

  /** A name without '.' panics in hasExtension: no directory or file is
      touched, nothing is started and nothing is printed. */
  lemma DotFreeNameTouchesNothing(w: World, file: string, open: bool, terminal: bool, env: CreateEnv)
    requires '.' !in file
    ensures CheckAndRunCreateSpec(w, file, open, terminal, env) == (w, Panicked(IndexOutOfRange))
  {
    HasExtensionIff(file);
  }

  /** A name holding '.' passes the extension guard. */
  lemma NamedFileIsCreated(w: World, file: string, open: bool, terminal: bool, env: CreateEnv)
    requires '.' in file
    ensures CheckAndRunCreateSpec(w, file, open, terminal, env) == AfterGuard(w, file, open, terminal, env)
  {
    HasExtensionIff(file);
  }

  /** The "must have an extension" line of the create command is never
      printed, because hasExtension never answers false; the command only
      ever adds the "File created" or "Couldn't create" line. */
  lemma NeverAsksForExtension(w: World, file: string, open: bool, terminal: bool, env: CreateEnv)
    ensures var w' := CheckAndRunCreateSpec(w, file, open, terminal, env).0;
      ExtendsWithout(w.messages, w'.messages, CreateNeedsExtension) &&
      |w'.messages| <= |w.messages| + 1 &&
      forall i :: |w.messages| <= i < |w'.messages| ==>
        w'.messages[i].FileCreated? || w'.messages[i] == CouldNotCreate(file)
  {
    HasExtensionIff(file);
    if '.' in file {
      NamedFileIsCreated(w, file, open, terminal, env);
      AfterGuardMessages(w, file, open, terminal, env);
    }
  }

  /** Past the guard, the only line createFile and checkAndRunCreate can
      add is "File created" or "Couldn't create" for this file. */
  lemma AfterGuardMessages(w: World, file: string, open: bool, terminal: bool, env: CreateEnv)
    ensures var w' := AfterGuard(w, file, open, terminal, env).0;
      ExtendsWithout(w.messages, w'.messages, CreateNeedsExtension) &&
      |w'.messages| <= |w.messages| + 1 &&
      forall i :: |w.messages| <= i < |w'.messages| ==>
        w'.messages[i].FileCreated? || w'.messages[i] == CouldNotCreate(file)
  {
    var (w1, r) := CreateFileSpec(w, file, open, terminal, env);
    if r.Ok? {
      CreateFileResult(w, file, open, terminal, env);
    } else {
      CreateDirResult(w, file, env);
    }
  }

  /** The batch never starts a child (both flags are off), never leaves the
      working directory and never removes a path. */
  lemma {:induction false} BatchFrame(w: World, args: seq<string>, env: CreateEnv)
    ensures var w' := BatchSpec(w, args, env).0;
      w'.spawned == w.spawned && w'.cwd == w.cwd && w.paths <= w'.paths
    decreases |args|
  {
    if args != [] {
      var front := args[..|args| - 1];
      BatchFrame(w, front, env);
      var (w1, o) := BatchSpec(w, front, env);
      if o == Returned {
        StepFrame(w1, args[|args| - 1], env);
      }
    }
  }

  /** One step of the batch keeps the children and the working directory
      and only adds paths. */
  lemma StepFrame(w: World, file: string, env: CreateEnv)
    ensures var w' := CheckAndRunCreateSpec(w, file, false, false, env).0;
      w'.spawned == w.spawned && w'.cwd == w.cwd && w.paths <= w'.paths
  {
    HasExtensionIff(file);
    if '.' in file {
      NamedFileIsCreated(w, file, false, false, env);
      if CreateFileSpec(w, file, false, false, env).1.Ok? {
        CreateFileResult(w, file, false, false, env);
      } else {
        CreateDirResult(w, file, env);
      }
    }
  }

  /** One step of the batch that returns has created the argument's file
      and printed its path, and nothing else. */
  lemma StepCreated(w: World, file: string, env: CreateEnv)
    requires CheckAndRunCreateSpec(w, file, false, false, env).1 == Returned
    ensures var w' := CheckAndRunCreateSpec(w, file, false, false, env).0;
      TargetFile(file, env).Ok? && TargetFile(file, env).value in w'.paths &&
      w'.messages == w.messages + [FileCreated(TargetFile(file, env).value)]
  {
    HasExtensionIff(file);
    NamedFileIsCreated(w, file, false, false, env);
    CreateFileResult(w, file, false, false, env);
  }

  /** The files the batch writes, argument by argument. */
  function TargetFiles(args: seq<string>, env: CreateEnv): (r: seq<Result<string>>)
    ensures |r| == |args|
    decreases |args|
  {
    if args == [] then []
    else TargetFiles(args[..|args| - 1], env) + [TargetFile(args[|args| - 1], env)]
  }

  lemma {:induction false} TargetFilesAt(args: seq<string>, env: CreateEnv, i: int)
    requires 0 <= i < |args|
    ensures TargetFiles(args, env)[i] == TargetFile(args[i], env)
    decreases |args|
  {
    if i < |args| - 1 {
      TargetFilesAt(args[..|args| - 1], env, i);
    }
  }

  /** w' extends w by, for each file of files in order, that file, which
      exists, and the line printing it. */
  predicate CreatedEach(w: World, w': World, files: seq<Result<string>>)
  {
    |w'.messages| == |w.messages| + |files| && w'.messages[..|w.messages|] == w.messages &&
    forall i :: 0 <= i < |files| ==>
      files[i].Ok? && files[i].value in w'.paths && w'.messages[|w.messages| + i] == FileCreated(files[i].value)
  }

  lemma CreatedEachExtend(w: World, w1: World, w': World, files: seq<Result<string>>, last: Result<string>)
    requires CreatedEach(w, w1, files)
    requires w1.paths <= w'.paths
    requires last.Ok? && last.value in w'.paths
    requires w'.messages == w1.messages + [FileCreated(last.value)]
    ensures CreatedEach(w, w', files + [last])
  {
    var all := files + [last];
    forall i | 0 <= i < |all|
      ensures all[i].Ok? && all[i].value in w'.paths && w'.messages[|w.messages| + i] == FileCreated(all[i].value)
    {
      if i < |files| {
        assert all[i] == files[i];
        assert w'.messages[|w.messages| + i] == w1.messages[|w.messages| + i];
      }
    }
  }

  /** A batch that returns ran its last argument on the world its front
      part left, and that front part returned too. */
  lemma BatchLast(w: World, args: seq<string>, env: CreateEnv)
    requires args != [] && BatchSpec(w, args, env).1 == Returned
    ensures BatchSpec(w, args[..|args| - 1], env).1 == Returned
    ensures BatchSpec(w, args, env) ==
      CheckAndRunCreateSpec(BatchSpec(w, args[..|args| - 1], env).0, args[|args| - 1], false, false, env)
  {
  }

  lemma {:induction false} BatchCreatesTargets(w: World, args: seq<string>, env: CreateEnv)
    requires BatchSpec(w, args, env).1 == Returned
    ensures CreatedEach(w, BatchSpec(w, args, env).0, TargetFiles(args, env))
    decreases |args|
  {
    if args != [] {
      var front, last := args[..|args| - 1], args[|args| - 1];
      BatchLast(w, args, env);
      var w1 := BatchSpec(w, front, env).0;
      BatchCreatesTargets(w, front, env);
      StepCreated(w1, last, env);
      StepFrame(w1, last, env);
      CreatedEachExtend(w, w1, BatchSpec(w, args, env).0, TargetFiles(front, env), TargetFile(last, env));
    }
  }

  /** A batch that returns has, for each argument in order, created
      getDirPath(arg) + arg and printed that path. */
  lemma BatchCreatesEach(w: World, args: seq<string>, env: CreateEnv)
    requires BatchSpec(w, args, env).1 == Returned
    ensures var w' := BatchSpec(w, args, env).0;
      |w'.messages| == |w.messages| + |args| && w'.messages[..|w.messages|] == w.messages &&
      forall i :: 0 <= i < |args| ==>
        TargetFile(args[i], env).Ok? && TargetFile(args[i], env).value in w'.paths &&
        w'.messages[|w.messages| + i] == FileCreated(TargetFile(args[i], env).value)
  {
    BatchCreatesTargets(w, args, env);
    var w' := BatchSpec(w, args, env).0;
    var files := TargetFiles(args, env);
    forall i | 0 <= i < |args|
      ensures TargetFile(args[i], env).Ok? && TargetFile(args[i], env).value in w'.paths &&
        w'.messages[|w.messages| + i] == FileCreated(TargetFile(args[i], env).value)
    {
      TargetFilesAt(args, env, i);
      assert files[i].Ok? && files[i].value in w'.paths;
    }
  }

  /** With several arguments every one goes through checkAndRunCreate with
      both flags off, so no child is ever started; with one argument the
      -o and -t values are passed through. */
  lemma CreateCommandDispatch(w: World, args: seq<string>, open: bool, terminal: bool, env: CreateEnv)
    requires |args| >= 1
    ensures |args| > 1 ==> (CreateCommandSpec(w, args, open, terminal, env) == BatchSpec(w, args, env) &&
      CreateCommandSpec(w, args, open, terminal, env).0.spawned == w.spawned)
    ensures |args| == 1 ==> CreateCommandSpec(w, args, open, terminal, env) == CheckAndRunCreateSpec(w, args[0], open, terminal, env)
  {
    BatchFrame(w, args, env);
  }
}
