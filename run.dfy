/** The run command (cmd/run.go): checkAndRun checks the name, searches for
    the source, moves to its project root and calls run, which compiles the
    file unless it is already compiled, busy-waits for the compiled output
    and executes it.

    searchFile, getOutputName, isAlreadyCompiled and compile are not part of
    this model: they are oracles in RunEnv. What os.Stat reports on each turn
    of the busy-wait is the finite trace RunEnv.polls; when the trace runs
    out with the output still missing, the command is Hung (it would spin
    forever). */
module RunCmd {
  import opened Outcomes
  import opened FilePath
  import opened Host
  import opened Root

  /** What os.Stat(outPath) reports on one turn of the wait loop: the path
      exists, it does not exist, or some other error. */
  datatype StatReply = Exists | NotExist | StatFailed

  /** What searchFile returns: an error, or a file path (empty when nothing
      was found) and the root path of the project holding it. */
  datatype SearchReply = SearchFailed | Searched(filePath: string, rootPath: string)

  /** How run ends: it returns nil, it returns the execution's error, or it
      never leaves the wait loop. */
  datatype RunResult = RunOk | RunFailed | RunHung

  /** The parts of the world the model leaves uninterpreted. search gets the
      name and the working directory; isAlreadyCompiled gets the name and the
      working directory and answers (compiled, outPath); execFails says
      whether running a command returns an error. */
  datatype RunEnv = RunEnv(
    os: Os,
    search: (string, string) -> SearchReply,
    outputName: string -> string,
    isAlreadyCompiled: (string, string) -> (bool, string),
    polls: seq<StatReply>,
    execFails: string -> bool)

  /** The command run executes: "./" + outName + ".o". */
  function ExecCommand(outName: string): string
  {
    "./" + outName + ".o"
  }

  /** The command is the output name between "./" and ".o", so distinct
      output names give distinct commands. */
  lemma ExecCommandShape(outName: string, other: string)
    ensures var r := ExecCommand(outName);
      |r| == |outName| + 4 && r[..2] == "./" && r[2..|r| - 2] == outName && r[|r| - 2..] == ".o"
    ensures ExecCommand(outName) == ExecCommand(other) <==> outName == other
  {
    var r, q := ExecCommand(outName), ExecCommand(other);
    assert r[2..|r| - 2] == outName;
    assert q[2..|q| - 2] == other;
  }

  /** The first turn, at or after i, on which the stat reports anything but
      "does not exist". */
  function FirstReadyFrom(polls: seq<StatReply>, i: nat): (r: Option<nat>)
    requires i <= |polls|
    ensures r.Some? ==> i <= r.value < |polls| && polls[r.value] != NotExist
    ensures r.Some? ==> forall j :: i <= j < r.value ==> polls[j] == NotExist
    ensures r.None? ==> forall j :: i <= j < |polls| ==> polls[j] == NotExist
    decreases |polls| - i
  {
    if i == |polls| then None
    else if polls[i] != NotExist then Some(i)
    else FirstReadyFrom(polls, i + 1)
  }

  /** The turn on which the wait loop breaks, if any. */
  function FirstReady(polls: seq<StatReply>): Option<nat>
  {
    FirstReadyFrom(polls, 0)
  }

  /** run, as a function of the world before it. */
  function RunSpec(w: World, file: string, env: RunEnv): (World, RunResult)
  {
    var outName := env.outputName(file);
    var (compiled, outPath) := env.isAlreadyCompiled(file, w.cwd);
    var waited :=
      if compiled then Some(w)
      else
        var w1 := w.(spawned := w.spawned + [CompileJob(w.cwd, file, outName)]);
        match FirstReady(env.polls)
        case None => None
        case Some(k) =>
          var w2 := if env.polls[k] == Exists then w1.(paths := w1.paths + {outPath}) else w1;
          Some(w2.(messages := w2.messages + [Compiled(file, outPath)]));
    match waited
    case None => (w.(spawned := w.spawned + [CompileJob(w.cwd, file, outName)]), RunHung)
    case Some(w3) =>
      var command := ExecCommand(outName);
      (w3.(spawned := w3.spawned + [Exec(w.cwd, command)]),
       if env.execFails(command) then RunFailed else RunOk)
  }

  /** run. */
  method Run(p: Process, file: string, env: RunEnv) returns (res: RunResult)
    modifies p
    ensures (p.Snapshot(), res) == RunSpec(old(p.Snapshot()), file, env)
  {
    var outName := env.outputName(file);
    var (compiled, outPath) := env.isAlreadyCompiled(file, p.cwd);
    if !compiled {
      p.Spawn(CompileJob(p.cwd, file, outName));
      var i := 0;
      while i < |env.polls| && env.polls[i] == NotExist
        invariant 0 <= i <= |env.polls|
        invariant FirstReadyFrom(env.polls, i) == FirstReady(env.polls)
        decreases |env.polls| - i
      {
        i := i + 1;
      }
      if i == |env.polls| {
        return RunHung;
      }
      if env.polls[i] == Exists {
        p.AddPath(outPath);
      }
      p.Println(Compiled(file, outPath));
    }
    var command := ExecCommand(outName);
    p.Spawn(Exec(p.cwd, command));
    if env.execFails(command) {
      res := RunFailed;
    } else {
      res := RunOk;
    }
  }

  /** checkAndRun, as a function of the world before it. */
  function CheckAndRunSpec(w: World, file: string, env: RunEnv): (World, Outcome)
  {
    if file == "" then (w.(messages := w.messages + [NoFileGiven]), Returned)
    else
      match HasExtension(file)
      case Panic(f) => (w, Panicked(f))
      case Ok(has) =>
        if !has then (w.(messages := w.messages + [RunNeedsExtension]), Returned)
        else AfterSearch(w, file, env.search(file, w.cwd), env)
  }

  /** The part of checkAndRun after searchFile has answered found. */
  function AfterSearch(w: World, file: string, found: SearchReply, env: RunEnv): (World, Outcome)
  {
    match found
    case SearchFailed => (w, Panicked(SearchError))
    case Searched(filePath, rootPath) =>
      if filePath == "" then (w.(messages := w.messages + [SourceNotFound(file)]), Returned)
      else
        var (w1, res) := RunSpec(w.(cwd := rootPath), Base(env.os, filePath), env);
        match res
        case RunHung => (w1, Hung)
        case RunFailed => (w1.(messages := w1.messages + [CouldNotRun(filePath)]), Panicked(RunError))
        case RunOk => (w1, Returned)
  }

  /** checkAndRun. */
  method CheckAndRun(p: Process, file: string, env: RunEnv) returns (outcome: Outcome)
    modifies p
    ensures (p.Snapshot(), outcome) == CheckAndRunSpec(old(p.Snapshot()), file, env)
  {
    if file == "" {
      p.Println(NoFileGiven);
      return Returned;
    }
    var has := HasExtension(file);
    HasExtensionIff(file);
    if has.Panic? {
      return Panicked(has.fault);
    }
    if has.value {
      var found := env.search(file, p.cwd);
      if found.SearchFailed? {
        return Panicked(SearchError);
      }
      if found.filePath == "" {
        p.Println(SourceNotFound(file));
        return Returned;
      }
      p.Chdir(found.rootPath);
      var toRun := Base(env.os, found.filePath);
      var res := Run(p, toRun, env);
      if res == RunHung {
        return Hung;
      }
      if res == RunFailed {
        p.Println(CouldNotRun(found.filePath));
        return Panicked(RunError);
      }
      outcome := Returned;
    } else {
      // The source prints the "must have an extension" line here; the
      // branch is dead because hasExtension never answers false.
      assert false;
    }
  }

  /** run never changes the working directory, starts every child in it,
      and only adds to the paths, the children and the messages. */
  lemma RunFrame(w: World, file: string, env: RunEnv)
    ensures var (w', _) := RunSpec(w, file, env);
      w'.cwd == w.cwd && w.paths <= w'.paths &&
      |w'.spawned| > |w.spawned| && w'.spawned[..|w.spawned|] == w.spawned &&
      (forall i :: |w.spawned| <= i < |w'.spawned| ==> w'.spawned[i].dir == w.cwd) &&
      |w'.messages| >= |w.messages| && w'.messages[..|w.messages|] == w.messages &&
      (forall i :: |w.messages| <= i < |w'.messages| ==> w'.messages[i].Compiled?)
  {
  }

  /** An artifact that is already compiled is executed straight away: no
      compile job, no waiting, no message, nothing created. */
  lemma CompiledSkipsCompile(w: World, file: string, env: RunEnv)
    requires env.isAlreadyCompiled(file, w.cwd).0
    ensures var (w', res) := RunSpec(w, file, env);
      res != RunHung && w'.paths == w.paths && w'.messages == w.messages &&
      w'.spawned == w.spawned + [Exec(w.cwd, ExecCommand(env.outputName(file)))]
  {
  }

  /** When a compile was needed and run got past the wait loop, the loop
      stopped on the first stat that reported something other than "does
      not exist", after a compile job was started; on that exit the output
      path exists or the stat failed for another reason. */
  lemma WaitExit(w: World, file: string, env: RunEnv)
    requires !env.isAlreadyCompiled(file, w.cwd).0
    requires RunSpec(w, file, env).1 != RunHung
    ensures FirstReady(env.polls).Some?
    ensures var k := FirstReady(env.polls).value;
      var outPath := env.isAlreadyCompiled(file, w.cwd).1;
      var w' := RunSpec(w, file, env).0;
      k < |env.polls| && env.polls[k] != NotExist &&
      (forall j :: 0 <= j < k ==> env.polls[j] == NotExist) &&
      (outPath in w'.paths || env.polls[k] == StatFailed) &&
      w'.spawned[|w.spawned|] == CompileJob(w.cwd, file, env.outputName(file)) &&
      w'.messages == w.messages + [Compiled(file, outPath)]
  {
  }

  /** run hangs exactly when a compile was needed and every stat in the
      trace reports "does not exist". */
  lemma HangIff(w: World, file: string, env: RunEnv)
    ensures RunSpec(w, file, env).1 == RunHung <==>
      !env.isAlreadyCompiled(file, w.cwd).0 &&
      forall j :: 0 <= j < |env.polls| ==> env.polls[j] == NotExist
  {
    if !env.isAlreadyCompiled(file, w.cwd).0 && FirstReady(env.polls).Some? {
      var k := FirstReady(env.polls).value;
      assert env.polls[k] != NotExist;
    }
  }

  /** Unless it hangs, run ends by executing "./" + outName + ".o", and it
      returns an error exactly when that execution does. */
  lemma ExecErrorIff(w: World, file: string, env: RunEnv)
    requires RunSpec(w, file, env).1 != RunHung
    ensures var (w', res) := RunSpec(w, file, env);
      var command := ExecCommand(env.outputName(file));
      w'.spawned[|w'.spawned| - 1] == Exec(w.cwd, command) &&
      (res == RunFailed <==> env.execFails(command))
  {
  }

  /** An empty name prints "No file was given" and does nothing else. */
  lemma EmptyNameOnlyPrints(w: World, env: RunEnv)
    ensures CheckAndRunSpec(w, "", env) == (w.(messages := w.messages + [NoFileGiven]), Returned)
  {
  }

  /** A non-empty name without '.' panics in hasExtension before any search,
      chdir or message: the world is unchanged. */
  lemma DotFreeNamePanics(w: World, file: string, env: RunEnv)
    requires file != "" && '.' !in file
    ensures CheckAndRunSpec(w, file, env) == (w, Panicked(IndexOutOfRange))
  {
    HasExtensionIff(file);
  }

  /** A search error panics before any chdir: the world is unchanged. */
  lemma SearchErrorAborts(w: World, file: string, env: RunEnv)
    requires file != "" && '.' in file
    requires env.search(file, w.cwd).SearchFailed?
    ensures CheckAndRunSpec(w, file, env) == (w, Panicked(SearchError))
  {
    HasExtensionIff(file);
  }

  /** A search that finds nothing prints "Couldn't find source file" and
      returns; the working directory is unchanged and run is never
      invoked, so no child is started. */
  lemma NotFoundKeepsCwd(w: World, file: string, env: RunEnv)
    requires file != "" && '.' in file
    requires env.search(file, w.cwd).Searched? && env.search(file, w.cwd).filePath == ""
    ensures var (w', outcome) := CheckAndRunSpec(w, file, env);
      outcome == Returned && w'.cwd == w.cwd && w'.spawned == w.spawned &&
      w'.paths == w.paths && w'.messages == w.messages + [SourceNotFound(file)]
  {
    HasExtensionIff(file);
  }

  /** A non-empty name holding '.' always goes on to the search. */
  lemma NamedSourceIsSearched(w: World, file: string, env: RunEnv)
    requires file != "" && '.' in file
    ensures CheckAndRunSpec(w, file, env) == AfterSearch(w, file, env.search(file, w.cwd), env)
  {
    HasExtensionIff(file);
  }

  /** After a successful search the working directory is the root path and
      stays so; every child is started there; run gets only the base name of
      the found path; and the command panics with the run error exactly when
      the execution fails. */
  lemma FoundRunsBaseNameAtRoot(w: World, file: string, filePath: string, rootPath: string, env: RunEnv)
    requires filePath != ""
    ensures var toRun := Base(env.os, filePath);
      var after := AfterSearch(w, file, Searched(filePath, rootPath), env);
      var run := RunSpec(w.(cwd := rootPath), toRun, env);
      after.0.cwd == rootPath && after.0.spawned == run.0.spawned &&
      (forall i :: |w.spawned| <= i < |after.0.spawned| ==> after.0.spawned[i].dir == rootPath) &&
      (after.1 == Hung <==> run.1 == RunHung) &&
      (after.1 == Panicked(RunError) <==> run.1 == RunFailed) &&
      (after.1 == Panicked(RunError) ==>
        env.execFails(ExecCommand(env.outputName(toRun))) &&
        after.0.messages == run.0.messages + [CouldNotRun(filePath)])
  {
    var toRun := Base(env.os, filePath);
    var w0 := w.(cwd := rootPath);
    RunFrame(w0, toRun, env);
    if RunSpec(w0, toRun, env).1 != RunHung {
      ExecErrorIff(w0, toRun, env);
    }
  }

  /** The lines checkAndRun may print for `file`. */
  predicate RunLine(m: Message, file: string)
  {
    m == NoFileGiven || m == SourceNotFound(file) || m.Compiled? || m.CouldNotRun?
  }

  /** The "must have an extension" message of the run command is never
      printed: checkAndRun's only messages are the empty-name, not-found,
      compiled and could-not-run lines. */
  lemma NeverAsksForExtension(w: World, file: string, env: RunEnv)
    ensures var w' := CheckAndRunSpec(w, file, env).0;
      ExtendsWithout(w.messages, w'.messages, RunNeedsExtension) &&
      forall i :: |w.messages| <= i < |w'.messages| ==> RunLine(w'.messages[i], file)
  {
    HasExtensionIff(file);
    if file == "" {
      assert CheckAndRunSpec(w, file, env).0.messages == w.messages + [NoFileGiven];
    } else if '.' in file {
      AfterSearchNeverAsks(w, file, env.search(file, w.cwd), env);
    }
  }

  lemma AfterSearchNeverAsks(w: World, file: string, found: SearchReply, env: RunEnv)
    ensures var w' := AfterSearch(w, file, found, env).0;
      ExtendsWithout(w.messages, w'.messages, RunNeedsExtension) &&
      forall i :: |w.messages| <= i < |w'.messages| ==> RunLine(w'.messages[i], file)
  {
    var w' := AfterSearch(w, file, found, env).0;
    match found
    case SearchFailed =>
    case Searched(filePath, rootPath) =>
      if filePath == "" {
        assert w'.messages == w.messages + [SourceNotFound(file)];
      } else {
        var w0 := w.(cwd := rootPath);
        var toRun := Base(env.os, filePath);
        RunFrame(w0, toRun, env);
        var (w1, res) := RunSpec(w0, toRun, env);
        assert w' == w1 || w' == w1.(messages := w1.messages + [CouldNotRun(filePath)]);
      }
  }
}
