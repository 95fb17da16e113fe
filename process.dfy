/**
 * External processes, seen only through their outcome. Every place where the
 * crate spawns `vyper`, `pip3`, `mkdir` or `python3` is modelled as a call of a
 * `Shell` oracle on the exact command line it builds.
 */
module Process {

  /** A command line: the program and its arguments, in order. */
  datatype Invocation = Invocation(program: string, args: seq<string>)

  /**
   * What `Command::output()` gives back: either the process could not be
   * spawned (an `io::Error`), or it ran and exited with a status and captured
   * streams. The byte streams are taken as already decoded text.
   */
  datatype Output =
    | SpawnFailed
    | Exited(success: bool, stdout: string, stderr: string)

  /** The outside world's answer to each command line. */
  type Shell = Invocation -> Output
}
