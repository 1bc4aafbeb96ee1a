/** The world the audio reader acts on, reduced to what its decisions depend
    on: the filesystem as the set of paths that exist, every external program
    (ffmpeg, mpg123, lame) as an oracle that says how one invocation ended,
    and the exceptions the reader raises. */
module World {

  type Path = string

  /** A command line as handed to `subprocess.call`: program name first. */
  type Argv = seq<string>

  /** The paths that exist (`os.path.exists`). */
  type FileSystem = set<Path>

  datatype Option<T> = None | Some(value: T)

  /** How one `subprocess.call` ended: the program ran and exited with a
      status code, having written its output file or not; or it could not be
      launched at all and `OSError` was raised with an `errno`. */
  datatype CallOutcome =
    | Exited(code: int, wroteOutput: bool)
    | LaunchFailed(errno: int)

  /** "No such file or directory": the program is not on the search path. */
  const ENOENT := 2

  predicate IsSuccess(o: CallOutcome) {
    o.Exited? && o.code == 0
  }

  predicate IsMissingBinary(o: CallOutcome) {
    o == LaunchFailed(ENOENT)
  }

  /** An invocation that writes the output file the command line names. */
  predicate WritesOutput(o: CallOutcome) {
    o.Exited? && o.wroteOutput
  }

  /** The `errno` a `DecoderException` carries as its original error. */
  function OrigErrno(o: CallOutcome): Option<int> {
    if o.LaunchFailed? then Some(o.errno) else None
  }

  /** What went wrong in a `DecoderException`; each has its own message. */
  datatype Problem =
    | DecodingFailed
    | ResamplingFailed
    | ResamplerNotFound(program: string)
    | ResamplingUnknown

  /** The exceptions that leave the reader's operations, with the data
      their messages are built from. */
  datatype Error =
      /** `DecoderException(message, command, orig_error)`; the original
          error is an `OSError`, kept here as its `errno`. */
    | DecoderException(problem: Problem, command: Argv, origErrno: Option<int>)
      /** The plain `OSError` that `decode` raises when no decoder ran,
          naming the extension and the programs of the decoder table. */
    | NoDecoderFound(ext: string, programs: seq<string>)
      /** The `NameError` raised for an input path that does not exist. */
    | FileMissing(filename: Path)
      /** Whatever the WAV parser raises on a file it cannot read. */
    | WavUnreadable

  datatype Result<T> = Ok(value: T) | Raised(err: Error)

  /** `sep.join(parts)`. */
  function Join(sep: string, parts: seq<string>): string {
    if parts == [] then ""
    else if |parts| == 1 then parts[0]
    else parts[0] + sep + Join(sep, parts[1..])
  }

  /** Python's `a in s` for two strings. */
  predicate IsSubstring(a: string, s: string) {
    a <= s || (s != [] && IsSubstring(a, s[1..]))
  }

  function ProblemText(p: Problem): string {
    match p
    case DecodingFailed => "Problem appeared during decoding."
    case ResamplingFailed => "Problem appeared during resampling."
    case ResamplerNotFound(program) => "Decoder not found. Please install " + program
    case ResamplingUnknown => "Unknown problem appeared during resampling."
  }

  /** The exception's message (the source glues the pieces of the `OSError`
      message without spaces around the extension). */
  function Message(e: Error): string {
    match e
    case DecoderException(p, _, _) => ProblemText(p)
    case NoDecoderFound(ext, programs) => NoDecoderLead(ext) + Join(", ", programs) + NoDecoderAdvice
    case FileMissing(filename) => "File does not exist:" + filename
    case WavUnreadable => ""
  }

  function NoDecoderLead(ext: string): string {
    "No appropriate decoder found for" + ext + "file."
    + "Check if any of these programs is on your system path: "
  }

  const NoDecoderAdvice := ". " + "Otherwise install one of these and/or add them to the path using os.environ['PATH'] += os.pathsep + path."

  lemma {:induction false} SubstringOfConcat(a: string, x: string, z: string)
    ensures IsSubstring(a, x + a + z)
  {
    if x == [] {
      assert a <= a + z;
      assert x + a + z == a + z;
    } else {
      SubstringOfConcat(a, x[1..], z);
      assert (x + a + z)[1..] == x[1..] + a + z;
    }
  }

  /** The message of the `OSError` raised when no decoder ran names every
      program. */
  lemma NoDecoderMessageNames(ext: string, programs: seq<string>)
    ensures IsSubstring(Join(", ", programs), Message(NoDecoderFound(ext, programs)))
  {
    SubstringOfConcat(Join(", ", programs), NoDecoderLead(ext), NoDecoderAdvice);
  }
}
