/** Values of the program's error paths: an optional value, the panics the
    commands can end in, and the way a command invocation ends. */
module Outcomes {

  datatype Option<T> = None | Some(value: T)

  /** Why a Go panic was raised. */
  datatype Fault =
    | IndexOutOfRange     // getExtensionIndex indexes the name at -1
    | HomeDirUnavailable  // os.UserHomeDir failed inside getDirPath
    | SearchError         // searchFile returned an error
    | MkdirError          // os.Mkdir failed inside createDir
    | RunError            // run returned an error (the child failed)
    | CreateError         // createFile returned an error

  /** A Go function that either returns a value or panics. */
  datatype Result<T> = Ok(value: T) | Panic(fault: Fault)

  /** How a command invocation ends: it returns, it panics, or it is still
      busy-waiting when the modelled stat replies run out. */
  datatype Outcome = Returned | Panicked(fault: Fault) | Hung
}
