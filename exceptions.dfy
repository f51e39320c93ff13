/** The exceptions the modelled Python code raises, as values. Every
    operation that can raise returns `Result<T, Exception>`. */
module Exceptions {
  import opened Wrappers

  /** What a process was started with: the argument list of a fresh
      `ShellResult` (an empty list) or the shell command line. */
  datatype Args = ArgList(items: seq<string>) | CommandLine(cmd: string)

  datatype Exception =
      /** `subprocess.CalledProcessError(returncode, cmd, output, stderr)` */
    | CalledProcessError(returncode: int, cmd: Args, output: Option<string>, stderr: Option<string>)
      /** `AttributeError`: an attribute looked up on an object that lacks it */
    | AttributeError(attribute: string)
      /** `TypeError`, e.g. `str < None` */
    | TypeError(operation: string)
      /** `ValueError`, e.g. unpacking a one-element list into two names */
    | ValueError(reason: string)
      /** `KeyError` for a missing dictionary key */
    | KeyError(key: string)
      /** `IndexError` for `list[-1]` on an empty list */
    | IndexError
      /** `FileNotFoundError` for a path whose parent directory is missing */
    | FileNotFound(path: string)
      /** `EOFError` from `input()` once the input is exhausted */
    | EOFError
      /** `NoConfigException`: the project is not configured for a tool */
    | NoConfig(tool: string)
      /** `NotInstalledException`: a required binary is missing */
    | NotInstalled(tool: string)
      /** a plain `Exception(message)` */
    | Failure(message: string)
}
