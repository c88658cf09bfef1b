/** What the commands change in the operating system, seen from the running
    process: the paths that exist, the working directory, the child
    processes started (in order) and the lines printed (in order). */
module Host {

  /** A child process, recorded by what it was started to do and, for the
      run command's children, the working directory it was started in. */
  datatype Child =
    | CompileJob(dir: string, source: string, outName: string)  // compile(file, outName)
    | Exec(dir: string, command: string)                        // exec.Command(command).Run()
    | OpenWithApp(path: string)                    // op.Run(path)
    | OpenInTerminal(dir: string, name: string)    // the open_dir.sh script

  /** A line printed on standard output. */
  datatype Message =
    | NoFileGiven                  // "No file was given. Exiting."
    | SourceNotFound(file: string) // "Couldn't find source file %s. Please try again."
    | CouldNotRun(filePath: string)
    | Compiled(file: string, outPath: string)
    | RunNeedsExtension            // "The file must have an extension. Example: lazy run myproject.c"
    | CreateNeedsExtension         // "The file must have an extension. Example: lazy create -o myproject.go"
    | CouldNotCreate(file: string)
    | FileCreated(path: string)    // "File created at %s"

  /** A snapshot of the process's view of the system. */
  datatype World = World(paths: set<string>, cwd: string, spawned: seq<Child>, messages: seq<Message>)

  /** after is before followed by lines none of which is m. */
  predicate ExtendsWithout(before: seq<Message>, after: seq<Message>, m: Message)
  {
    |after| >= |before| && after[..|before|] == before &&
    forall i :: |before| <= i < |after| ==> after[i] != m
  }

  class Process {
    var paths: set<string>
    var cwd: string
    var spawned: seq<Child>
    var messages: seq<Message>

    function Snapshot(): World
      reads this
    {
      World(paths, cwd, spawned, messages)
    }

    constructor (w: World)
      ensures Snapshot() == w
    {
      paths, cwd, spawned, messages := w.paths, w.cwd, w.spawned, w.messages;
    }

    /** fmt.Println / fmt.Printf. */
    method Println(m: Message)
      modifies this
      ensures Snapshot() == old(Snapshot()).(messages := old(messages) + [m])
    {
      messages := messages + [m];
    }

    /** os.Chdir, whose error the source ignores. */
    method Chdir(dir: string)
      modifies this
      ensures Snapshot() == old(Snapshot()).(cwd := dir)
    {
      cwd := dir;
    }

    /** Starting a child process. */
    method Spawn(c: Child)
      modifies this
      ensures Snapshot() == old(Snapshot()).(spawned := old(spawned) + [c])
    {
      spawned := spawned + [c];
    }

    /** A path comes into existence (os.Mkdir, os.WriteFile, or the output of
        a compile job showing up). */
    method AddPath(p: string)
      modifies this
      ensures Snapshot() == old(Snapshot()).(paths := old(paths) + {p})
    {
      paths := paths + {p};
    }
  }
}
