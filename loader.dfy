/** The entry points: `mp3_read`, `audiofile_read` and `convert_to_wav`.
    Each checks or derives the lower-cased extension, decodes non-WAV input
    to a WAV file through `decode`, and reads it with `wav_read` or keeps it;
    a temporary decoded file is always deleted afterwards. */
module AudioLoader {
  import opened World
  import opened Paths
  import opened Decoding
  import opened WavRules

  /** The filesystem after `decode(filename, out)`: `out` exists if one of
      the decoders invoked wrote it. */
  function DecodedFiles(fs: FileSystem, filename: Path, out: Path, run: Argv -> CallOutcome): FileSystem {
    if WroteOutput(DecodeTrial(filename, Some(out), run).tried, run) then fs + {out} else fs
  }

  /** The specification of `mp3_read`: decode to `temp`, read `temp` with
      automatic resampling, and delete `temp` whatever happened. */
  function Mp3ReadResult(fs: FileSystem, filename: Path, normalize: bool, readwav: Path -> WavParse,
                         run: Argv -> CallOutcome, temp: Path, resampleTemp: Path): (Result<Audio>, FileSystem)
  {
    var t := DecodeTrial(filename, Some(temp), run);
    var fs1 := DecodedFiles(fs, filename, temp, run);
    match t.status
    case Succeeded =>
      var (r, fs2) := WavReadResult(fs1, temp, normalize, true, readwav, run, resampleTemp);
      (r, fs2 - {temp})
    case _ => (Raised(Report(t.status, LowerExt(filename), DecoderTable(filename, temp)).err), fs1 - {temp})
  }

  /** The command lines the `wav_read` step of `mp3_read` launches: none
      unless a decoder succeeded, else those of reading `temp` with
      automatic resampling. */
  function Mp3ReadLaunches(fs: FileSystem, filename: Path, readwav: Path -> WavParse,
                           run: Argv -> CallOutcome, temp: Path, resampleTemp: Path): seq<Argv>
  {
    if DecodeTrial(filename, Some(temp), run).status == Succeeded
    then WavReadLaunches(DecodedFiles(fs, filename, temp, run), temp, true, readwav, run, resampleTemp)
    else []
  }

  /** `mp3_read(filename, normalize)`: the decoded temporary file `temp` never
      survives the call, and apart from it only the resampling file
      `resampleTemp` may appear. Audio is returned only after a decoder
      succeeded. `tried` lists the decoders invoked, `resampling` the ffmpeg
      calls of `wav_read` that resample the decoded file. */
  method Mp3Read(fs: FileSystem, filename: Path, normalize: bool, readwav: Path -> WavParse,
                 run: Argv -> CallOutcome, temp: Path, resampleTemp: Path)
    returns (r: Result<Audio>, fs': FileSystem, tried: seq<Argv>, resampling: seq<Argv>)
    ensures (r, fs') == Mp3ReadResult(fs, filename, normalize, readwav, run, temp, resampleTemp)
    ensures tried == DecodeTrial(filename, Some(temp), run).tried
    ensures resampling == Mp3ReadLaunches(fs, filename, readwav, run, temp, resampleTemp)
    ensures temp !in fs'
    ensures fs' - {temp, resampleTemp} == fs - {temp, resampleTemp}
    ensures r.Ok? ==> DecodeTrial(filename, Some(temp), run).status == Succeeded
  {
    var decoded, fs1;
    resampling := [];
    decoded, fs1, tried := Decode(fs, filename, Some(temp), run);
    ghost var status := DecodeTrial(filename, Some(temp), run).status;
    assert OutputName(filename, Some(temp)) == temp;
    assert fs1 == DecodedFiles(fs, filename, temp, run);
    if decoded.Raised? {
      assert status != Succeeded;
      r := Raised(decoded.err);
      fs' := fs1 - {temp};
      return;
    }
    assert status == Succeeded;
    var fs2;
    r, fs2, resampling := WavRead(fs1, temp, normalize, true, readwav, run, resampleTemp);
    fs' := fs2 - {temp};
  }

  /** `audiofile_read(filename, normalize)`: a missing file raises
      `NameError`; a `.wav` file (in any letter case) is read by `wav_read`
      without calling `decode`, though ffmpeg still runs to resample it when
      its rate is not 11025, 22050 or 44100 Hz; any other file goes through
      the same steps as `mp3_read`. `tried` lists the decoders invoked,
      `resampling` the ffmpeg calls that resample. */
  method AudiofileRead(fs: FileSystem, filename: Path, normalize: bool, readwav: Path -> WavParse,
                       run: Argv -> CallOutcome, temp: Path, resampleTemp: Path)
    returns (r: Result<Audio>, fs': FileSystem, tried: seq<Argv>, resampling: seq<Argv>)
    ensures filename !in fs ==>
      r == Raised(FileMissing(filename)) && fs' == fs && tried == [] && resampling == []
    ensures filename in fs && IsWavPath(filename) ==>
      (r, fs') == WavReadResult(fs, filename, normalize, true, readwav, run, resampleTemp) && tried == []
      && resampling == WavReadLaunches(fs, filename, true, readwav, run, resampleTemp)
    ensures filename in fs && IsWavPath(filename) && readwav(filename).Parsed? ==>
      (resampling != [] <==> NeedsResample(true, readwav(filename).wav.rate))
    ensures filename in fs && !IsWavPath(filename) ==>
      (r, fs') == Mp3ReadResult(fs, filename, normalize, readwav, run, temp, resampleTemp)
      && tried == DecodeTrial(filename, Some(temp), run).tried
      && resampling == Mp3ReadLaunches(fs, filename, readwav, run, temp, resampleTemp)
    ensures fs' - {temp, resampleTemp} == fs - {temp, resampleTemp}
    ensures filename in fs && !IsWavPath(filename) ==> temp !in fs'
  {
    if filename !in fs {
      r, fs', tried, resampling := Raised(FileMissing(filename)), fs, [], [];
      return;
    }
    if IsWavPath(filename) {
      r, fs', resampling := WavRead(fs, filename, normalize, true, readwav, run, resampleTemp);
      tried := [];
    } else {
      r, fs', tried, resampling := Mp3Read(fs, filename, normalize, readwav, run, temp, resampleTemp);
    }
  }

  /** The specification of `convert_to_wav`: the name of the file that holds
      the audio afterwards, and the filesystem. */
  function ConvertResult(fs: FileSystem, filename: Path, run: Argv -> CallOutcome): (Result<Path>, FileSystem) {
    if filename !in fs then (Raised(FileMissing(filename)), fs)
    else if IsWavPath(filename) then (Ok(filename), fs)
    else
      var out := DefaultOutName(filename);
      var fs1 := DecodedFiles(fs, filename, out, run);
      match DecodeTrial(filename, Some(out), run).status
      case Succeeded => (Ok(out), fs1 - {filename})
      case HardFailure(_) => (Ok(filename), fs1 - {out})
      case Exhausted => (Raised(NoDecoderFound(LowerExt(filename), Programs(DecoderTable(filename, out)))), fs1)
  }

  /** `convert_to_wav(filename)`: a WAV file is kept; any other file is
      decoded to its name with the extension replaced by `.wav`. On success
      the input file is deleted and the new name returned; on a
      `DecoderException` the partial output is deleted and the input name
      returned; when no decoder ran the `OSError` propagates and nothing has
      changed. */
  method ConvertToWav(fs: FileSystem, filename: Path, run: Argv -> CallOutcome)
    returns (r: Result<Path>, fs': FileSystem, tried: seq<Argv>)
    ensures (r, fs') == ConvertResult(fs, filename, run)
    ensures tried == if filename in fs && !IsWavPath(filename)
                     then DecodeTrial(filename, Some(DefaultOutName(filename)), run).tried else []
    ensures r.Raised? ==> fs' == fs
    ensures r.Ok? && r.value != filename ==> r.value == DefaultOutName(filename) && filename !in fs'
    ensures r == Ok(filename) && !IsWavPath(filename) ==>
      filename in fs' && DefaultOutName(filename) !in fs'
  {
    if filename !in fs {
      r, fs', tried := Raised(FileMissing(filename)), fs, [];
      return;
    }
    if IsWavPath(filename) {
      r, fs', tried := Ok(filename), fs, [];
      return;
    }
    var ext := LowerExt(filename);
    var out := DefaultOutName(filename);
    OutNameDiffersFromInput(filename);
    var cmds := DecoderTable(filename, out);
    AttemptEndsWithLast(cmds, ext, run);
    var decoded, fs1;
    decoded, fs1, tried := Decode(fs, filename, Some(out), run);
    if decoded.Raised? && decoded.err.DecoderException? {
      fs' := fs1 - {out};
      r := Ok(filename);
    } else if decoded.Raised? {
      ExhaustedWritesNothing(cmds, ext, run);
      r, fs' := Raised(decoded.err), fs1;
    } else {
      fs' := fs1 - {filename};
      r := Ok(out);
    }
  }

  /** Converting the converted file again is a no-op: once a non-WAV file
      was decoded and its output exists, `convert_to_wav` on the returned
      name keeps it and changes nothing. This needs the input's base name to
      end in a named segment (for `dir/` the output `dir/.wav` has no
      extension and would be decoded again). */
  lemma ConvertTwiceIsNoop(fs: FileSystem, filename: Path, run: Argv -> CallOutcome)
    requires NamedSegment(SplitExt(filename).0)
    ensures var (r, fs1) := ConvertResult(fs, filename, run);
      r.Ok? && r.value != filename && r.value in fs1 ==>
        ConvertResult(fs1, r.value, run) == (Ok(r.value), fs1)
  {
    var (r, fs1) := ConvertResult(fs, filename, run);
    if r.Ok? && r.value != filename {
      DefaultOutNameIsWav(filename);
    }
  }
}
