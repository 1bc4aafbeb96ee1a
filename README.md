# audiofile_read: decoder fallback, WAV reading and file lifecycle

This project models the core of `audiofile_read.py` from rp_extract. That
module reads audio files for feature extraction. WAV files are read with a
WAV parser. MP3, AIF(F) and M4A files are first decoded to a WAV file by
calling an external decoder: ffmpeg, mpg123 or lame. The model covers:

- the decoder search of `decode` (`Decoding`);
- the path and extension rules that choose between those two routes
  (`Paths`);
- the resampling and normalisation rules of `wav_read` and `resample`
  (`WavRules`);
- the way `mp3_read`, `audiofile_read` and `convert_to_wav` create and
  delete files (`AudioLoader`).

The world these functions act on is reduced to three inputs (`World`):

- The filesystem is the set of paths that exist. Each operation takes it
  and returns the set as it is afterwards.
- Every external program call is an oracle `run: Argv -> CallOutcome`. A
  call either exits with a status code, having written its output file or
  not, or it fails to launch with an `errno`.
- The WAV parser is an oracle `readwav: Path -> WavParse`.

Exceptions are values of `Error`. The decoder search is specified by the
function `Decoding.Attempt`. The loop of `decode` is `Decoding.TryDecoders`,
and it is proved to compute exactly what `Attempt` says. The lemmas about
`Attempt` state which decoders are tried, in which order, and what ends the
search.

`wav_read`, `mp3_read` and `convert_to_wav` are methods. Each is proved
equal to a specification function:

- `WavRules.WavReadResult`;
- `AudioLoader.Mp3ReadResult`;
- `AudioLoader.ConvertResult`.

The lemmas about these functions state what the files look like afterwards.
`mp3_decode` only forwards to `decode`, so the model calls `Decode` in its
place.

## Model

| member | source | states |
|---|---|---|
| World.IsSubstring | audiofile_read.py:177 | Defines Python's `a in s` for two strings: `a` is a prefix of some suffix of `s` |
| World.Join | audiofile_read.py:201 | Defines `', '.join(...)` |
| World.OrigErrno | audiofile_read.py:188-195 | Defines the original error a `DecoderException` carries: the launch `errno`, or none after a nonzero exit |
| World.ProblemText | audiofile_read.py:102-116 | Defines the messages of the `DecoderException`s raised by `resample` and by `decode` (also lines 182-183 and 191-192) |
| World.Message | audiofile_read.py:200-206 | Defines each exception's message, including the no-decoder `OSError` glued from its pieces, and the `NameError` text of lines 56, 271 and 296 |
| Paths.IsWavPath | audiofile_read.py:273-276 | Defines the WAV test of `audiofile_read` and `convert_to_wav` (also lines 298-301): the lower-cased extension equals `.wav` |
| Paths.DefaultOutName | audiofile_read.py:151-152 | Defines the default output name, the base name followed by `.wav` (also line 305) |
| Decoding.DecoderTable | audiofile_read.py:162-170 | Defines the three descriptors in order: ffmpeg with its argument list and the tuple of extensions; mpg123 and lame with theirs and the string `.mp3` |
| Decoding.Supports | audiofile_read.py:177 | Defines `ext in types`: whole-element membership for a tuple, a substring test for a string |
| Decoding.Candidates | audiofile_read.py:174-177 | Defines the command lines of the descriptors that accept the extension, in table order |
| Decoding.Programs | audiofile_read.py:201 | Defines the program names of the table, `c[0] for c in cmd_list` |
| Decoding.Attempt | audiofile_read.py:172-198 | Reference definition of the search: skip a descriptor that does not accept the extension, stop at exit 0, raise a `DecoderException` for a nonzero exit or a launch error other than ENOENT, and move on after ENOENT |
| Decoding.Report | audiofile_read.py:200-206 | Defines what `decode` returns or raises once the search ended: nothing after success, the `DecoderException`, or the plain `OSError` naming the extension and the programs |
| Decoding.OutputName | audiofile_read.py:151-152 | Defines the output name: the given one, or the default name when it is omitted |
| Decoding.DecodeTrial | audiofile_read.py:148-177 | Defines the search `decode` runs for an input and an optional output name: `Attempt` over the table for the lower-cased extension |
| WavRules.NeedsResample | audiofile_read.py:60 | Defines the resampling trigger: `auto_resample` set and the rate none of 11025, 22050, 44100 |
| WavRules.ResampleCommand | audiofile_read.py:92-94 | Defines ffmpeg's command line for resampling `filename` to the rate into the temporary file |
| WavRules.ResampleError | audiofile_read.py:102-116 | Defines the exception for a failed resampling: "Problem appeared during resampling." after a nonzero exit. After ENOENT, if launching the bare program fails with any launch error too, "Decoder not found. Please install ffmpeg" with the probe's errno. Otherwise "Unknown problem appeared during resampling." |
| WavRules.ResampledFiles | audiofile_read.py:100-108 | Only the temporary file can change. It exists afterwards iff ffmpeg wrote it, or it existed and ffmpeg launched |
| WavRules.ReadWav | audiofile_read.py:58 | Defines the parser's answer for a path; a path that does not exist does not parse |
| WavRules.Loaded | audiofile_read.py:72-75 | Defines the result of `wav_read` for a parse: the triple, or the parser's exception |
| WavRules.WavReadResult | audiofile_read.py:44-75 | Reference definition of `wav_read`: `NameError` for a missing file, the direct parse when no resampling is needed, and otherwise resampling followed by the parse of the temporary file |
| AudioLoader.DecodedFiles | audiofile_read.py:174-186 | Defines the filesystem after `decode`: the output name is added iff an invoked decoder wrote it |
| WavRules.WavReadLaunches | audiofile_read.py:60-68 | Defines the command lines `wav_read` launches: none unless the file exists, parses and needs resampling; otherwise the ffmpeg call at the target rate, and the bare program after ENOENT (also lines 100-114) |
| AudioLoader.Mp3ReadLaunches | audiofile_read.py:240-246 | Defines the command lines the `wav_read` step of `mp3_read` launches: none unless a decoder succeeded, else those of reading the decoded file with automatic resampling |
| AudioLoader.Mp3ReadResult | audiofile_read.py:233-250 | Reference definition of `mp3_read`: decode to the temporary file, read it with automatic resampling, and remove it in every case |
| AudioLoader.ConvertResult | audiofile_read.py:293-316 | Reference definition of `convert_to_wav`: `NameError` for a missing file, WAV input kept, and otherwise decode to the default name with the three outcomes of lines 306-315 |
| Paths.Lower | audiofile_read.py:149 | The lower-cased extension has the same length as the input, and each character is lower-cased on its own, A-Z only |
| Paths.RFind | audiofile_read.py:148 | The index returned holds the character searched for, and no later index does; -1 means the character does not occur |
| Paths.ExtStart | audiofile_read.py:148 | The extension starts at a dot after which there is neither a dot nor a slash, or there is no extension |
| Paths.SplitExt | audiofile_read.py:148 | Base name and extension concatenate back to the path; the extension is empty or a dot followed by neither dots nor slashes |
| Paths.LowerExt | audiofile_read.py:148-149 | The extension the reader dispatches on is empty or starts with a dot, with no further dot or slash |
| Paths.WavExtensionSpellings | audiofile_read.py:273-276 | An extension is treated as WAV iff it is `.wav` in any mix of upper and lower case |
| Paths.DefaultOutNameIsWav | audiofile_read.py:298-305 | The default output name splits into the same base name and `.wav`, so it is itself a WAV path (needs a base name whose last segment is not only dots) |
| Paths.OutNameDiffersFromInput | audiofile_read.py:298-305 | A non-WAV input never has its own default output name, so `convert_to_wav` never decodes a file onto itself |
| World.NoDecoderMessageNames | audiofile_read.py:200-206 | The message of the no-decoder `OSError` contains the comma-separated list of the programs |
| Decoding.Decode | audiofile_read.py:132-206 | The command lines invoked are those of `Attempt` on the decoder table, for the lower-cased extension and for the output name (the given one, or base name + `.wav`). The result is `Ok`, the `DecoderException`, or the plain `OSError` naming the programs, as `Attempt` ends. The output name is added to the filesystem iff an invoked decoder wrote it; a file already there stays |
| Decoding.TryDecoders | audiofile_read.py:172-198 | The loop with its `success` flag and early exits invokes exactly the command lines `Attempt` tries. It sets `success` iff `Attempt` succeeds, raises the `DecoderException` `Attempt` ends with, and adds the output file iff an invoked decoder wrote it |
| Decoding.AttemptFollowsCandidates | audiofile_read.py:174-177 | Only decoders whose type collection accepts the extension are invoked, in table order: the command lines tried are a prefix of the candidates |
| Decoding.AttemptFallsThroughOnlyOnMissing | audiofile_read.py:188-190 | Every invocation before the last one failed to launch with errno 2; nothing else moves the search on |
| Decoding.AttemptEndsWithLast | audiofile_read.py:179-198 | The search succeeds iff the last invocation exited with 0. It is exhausted iff nothing was invoked or the last program was missing. Otherwise it raises a `DecoderException` carrying the last command line and its launch `errno`, if any |
| Decoding.AttemptExhaustedIff | audiofile_read.py:188-206 | The search ends without a decoder iff every candidate was invoked and each one's program was missing |
| Decoding.FirstCandidateWins | audiofile_read.py:186-198 | When the first candidate exits with 0, no later decoder is invoked |
| Decoding.Mp3StringMatches | audiofile_read.py:165-177 | For mpg123 and lame, `ext in '.mp3'` is a substring test: it holds exactly for the extensions `''`, `.`, `.m`, `.mp` and `.mp3` |
| Decoding.TableCandidates | audiofile_read.py:162-177 | `.mp3` selects ffmpeg, mpg123 and lame in that order. `.aif`, `.aiff` and `.m4a` select only ffmpeg. `''`, `.`, `.m` and `.mp` select only mpg123 and lame. Every other extension selects none |
| Decoding.NoDecoderInstalled | audiofile_read.py:188-206 | With no decoder installed, every candidate is tried and the plain `OSError` is raised, not a `DecoderException`; its message lists `ffmpeg, mpg123, lame` |
| Decoding.AllMissingExhausts | audiofile_read.py:188-200 | When every program is missing, the search invokes all candidates and ends exhausted |
| Decoding.TableProgramNames | audiofile_read.py:201 | The program list of the message is `ffmpeg, mpg123, lame` |
| Decoding.ExhaustedWritesNothing | audiofile_read.py:188-206 | A search that ends without a decoder has written no output file |
| WavRules.Divisor | audiofile_read.py:40 | `2 ** (8 * w) / 2` is an exact division equal to `2 ** (8 * w - 1)` |
| WavRules.Normalize | audiofile_read.py:29-41 | Normalisation keeps the array shape, and multiplying each result by the divisor gives back the original sample |
| WavRules.NormalizeInUnitRange | audiofile_read.py:29-41 | Signed samples of the given width normalise into [-1, 1) |
| WavRules.ResampleTarget | audiofile_read.py:60-66 | The target rate is 22050 or 44100. It does not itself trigger resampling, and it is below the original rate only when that rate is above 44100 |
| WavRules.DecimalString | audiofile_read.py:94 | `str(to_samplerate)` is a non-empty string of decimal digits |
| WavRules.Resample | audiofile_read.py:88-118 | Returns the temporary name iff ffmpeg exits with 0. Otherwise it raises the `DecoderException` for the outcome. The temporary file appears if ffmpeg wrote it and is removed after a launch error. The command lines launched are the ffmpeg call, plus the bare `ffmpeg` probe after ENOENT |
| WavRules.ResampleWithoutFfmpeg | audiofile_read.py:106-114 | With ffmpeg missing, `resample` raises "Decoder not found. Please install ffmpeg" with errno 2 and leaves no temporary file |
| WavRules.Finish | audiofile_read.py:72-75 | The triple keeps rate and width. Its samples are normalised iff `normalize` is set, and are otherwise the parser's integers |
| WavRules.WavRead | audiofile_read.py:44-75 | Computes `WavReadResult`. A missing file raises `NameError`. No file other than the resampling temporary changes. The samples are normalised iff requested. ffmpeg is launched iff the file exists, parses, and `auto_resample` is set with a rate other than 11025, 22050 or 44100; its first command line resamples to `ResampleTarget(rate)`, and the whole list is `WavReadLaunches` |
| WavRules.NoResampleReadsDirectly | audiofile_read.py:58-75 | A file that needs no resampling (`auto_resample` off, or a rate of 11025, 22050 or 44100 Hz) is returned as parsed, and the filesystem is unchanged |
| WavRules.WavReadNormalizedRange | audiofile_read.py:72-73 | When the parser yields signed samples, the normalised output of `wav_read` lies in [-1, 1), with or without resampling |
| WavRules.ResampledFileSurvives | audiofile_read.py:67-70 | The resampled temporary file is not deleted by `wav_read` |
| AudioLoader.Mp3Read | audiofile_read.py:233-250 | Computes `Mp3ReadResult` and tries the decoders `decode` tries. The decoded temporary file never exists afterwards, and apart from it only the resampling file may change. Audio is returned only after a decoder succeeded. The ffmpeg calls that resample the decoded file are `Mp3ReadLaunches` |
| AudioLoader.AudiofileRead | audiofile_read.py:253-290 | A missing file raises `NameError` before any decoder runs. A WAV path is read by `wav_read` without calling `decode`; ffmpeg still runs to resample it iff its rate is not 11025, 22050 or 44100, and the calls are `WavReadLaunches`. Any other path goes through the steps of `mp3_read`, and the decoded temporary file does not exist afterwards. Only the two temporary names may change |
| AudioLoader.ConvertToWav | audiofile_read.py:293-316 | Computes `ConvertResult`. On an exception the filesystem is unchanged. On success the input file is gone and the base name + `.wav` is returned. On a `DecoderException` the input file is kept, the output file is gone, and the input name is returned |
| AudioLoader.ConvertTwiceIsNoop | audiofile_read.py:298-316 | After a conversion whose output exists, converting the returned name again returns it and changes nothing (for a base name whose last segment is not only dots) |

## Left out

- ffmpeg, mpg123 and lame are not modelled. Each call is an oracle outcome: exit status, whether the output file was written, or launch error. Which programs exist and what they do is outside the code.
- The WAV parser `wavio.readwav` is third-party code. It is an oracle from a path to (rate, width, samples) or a failure. A path that does not exist never parses.
- `get_temp_filename` draws a `uuid4` name in the system temporary directory. The temporary names are parameters of the operations.
- WavRules.Normalize: the division is exact, over reals. The model does not capture float rounding or numpy's array types.
- WavRules.NormalizeInUnitRange: the range is claimed only for signed samples. 8-bit WAV data is unsigned, and the source's "range (-1, 1)" does not hold for it.
- Paths.Lower: `str.lower` is modelled for ASCII only. Locale-dependent bytes are not covered.
- Paths.SplitExt: follows POSIX `os.path.splitext` with `/` as the only separator. Windows drive letters and backslashes are not covered.
- The `verbose` printing, the `print` in `convert_to_wav`, `decode_to_memory`, `self_test` and the `__main__` block are not modelled. They are output and experiments only.
- The resampled temporary file is never deleted (the deletion at line 70 is commented out). The model keeps that behaviour and states it in `WavRules.ResampledFileSurvives`; it claims no cleanup.
- `DecoderException.original_error` is kept only as its `errno`. The rest of the `OSError` object is not modelled.
- Concurrency is not modelled. Another process creating or deleting files between the steps is outside the model.
