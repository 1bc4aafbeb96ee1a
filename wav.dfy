/** `normalize_wav`, `resample` and `wav_read`: reading a WAV file through
    the parser (an oracle here), resampling a file whose rate is not one of
    11025, 22050 or 44100 Hz with ffmpeg, and scaling the integer samples to
    reals. */
module WavRules {
  import opened World

  /** Bytes per sample as the parser reports it (1 = 8 bit, 2 = 16 bit, ...). */
  type SampleWidth = w: int | 1 <= w witness 1

  /** What the parser returns: sample rate, sample width and one row of
      channel samples per frame. */
  datatype WavContents = WavContents(rate: int, width: SampleWidth, frames: seq<seq<int>>)

  /** The parser reads a file, or raises. */
  datatype WavParse = Parsed(wav: WavContents) | Unreadable

  /** The sample array `wav_read` returns: the parser's integers, or reals
      after normalisation. */
  datatype Samples = Raw(ints: seq<seq<int>>) | Scaled(reals: seq<seq<real>>)

  /** The triple `(samplerate, samplewidth, wavedata)`. */
  datatype Audio = Audio(rate: int, width: SampleWidth, data: Samples)

  function Pow2(n: nat): (p: nat)
    ensures p >= 1
  {
    if n == 0 then 1 else 2 * Pow2(n - 1)
  }

  /** `2 ** (8 * samplewidth) / 2`: the division is exact, and the result is
      the magnitude of the most negative signed sample of that width. */
  function Divisor(w: SampleWidth): (d: nat)
    ensures d == Pow2(8 * w - 1)
    ensures 2 * d == Pow2(8 * w)
  {
    Pow2(8 * w) / 2
  }

  /** `normalize_wav`: every sample divided by the divisor of its width. */
  function Normalize(frames: seq<seq<int>>, w: SampleWidth): (r: seq<seq<real>>)
    ensures |r| == |frames|
    ensures forall i :: 0 <= i < |r| ==> |r[i]| == |frames[i]|
    ensures forall i, j :: 0 <= i < |r| && 0 <= j < |r[i]| ==>
      r[i][j] * (Divisor(w) as real) == frames[i][j] as real
  {
    seq(|frames|, i requires 0 <= i < |frames| =>
      seq(|frames[i]|, j requires 0 <= j < |frames[i]| => frames[i][j] as real / Divisor(w) as real))
  }

  /** Every sample of a signed `w`-byte range. */
  predicate SignedSamples(frames: seq<seq<int>>, w: SampleWidth) {
    forall i, j :: 0 <= i < |frames| && 0 <= j < |frames[i]| ==>
      -(Divisor(w) as int) <= frames[i][j] < Divisor(w)
  }

  /** Normalised signed samples lie in [-1, 1): the most negative sample
      maps to -1 and no sample reaches 1. */
  lemma NormalizeInUnitRange(frames: seq<seq<int>>, w: SampleWidth)
    requires SignedSamples(frames, w)
    ensures var r := Normalize(frames, w);
      forall i, j :: 0 <= i < |r| && 0 <= j < |r[i]| ==> -1.0 <= r[i][j] < 1.0
  {
    var r := Normalize(frames, w);
    forall i, j | 0 <= i < |r| && 0 <= j < |r[i]| ensures -1.0 <= r[i][j] < 1.0 {
      ScaledInUnit(frames[i][j], Divisor(w), r[i][j]);
    }
  }

  lemma ScaledInUnit(x: int, d: int, q: real)
    requires d > 0 && -d <= x < d
    requires q * (d as real) == x as real
    ensures -1.0 <= q < 1.0
  {
  }

  /** The condition under which `wav_read` resamples: automatic resampling
      is on and the rate is none of 11025, 22050, 44100. */
  predicate NeedsResample(autoResample: bool, rate: int) {
    autoResample && rate != 11025 && rate != 22050 && rate != 44100
  }

  /** The rate `wav_read` resamples to: 22050 below 22050 Hz, else 44100.
      The target needs no further resampling, and it is never below the
      original rate unless that rate is above 44100 Hz. */
  function ResampleTarget(rate: int): (t: nat)
    ensures t == 22050 || t == 44100
    ensures !NeedsResample(true, t)
    ensures rate <= t || rate > 44100
  {
    if rate < 22050 then 22050 else 44100
  }

  function Digit(n: nat): char
    requires n < 10
  {
    ('0' as int + n) as char
  }

  /** `str(n)` for a natural number. */
  function DecimalString(n: nat): (s: string)
    ensures s != []
    ensures forall i :: 0 <= i < |s| ==> '0' <= s[i] <= '9'
  {
    if n < 10 then [Digit(n)] else DecimalString(n / 10) + [Digit(n % 10)]
  }

  /** The ffmpeg command line of `resample`. */
  function ResampleCommand(filename: Path, toRate: nat, temp: Path): Argv {
    ["ffmpeg", "-v", "1", "-y", "-i", filename, "-ar", DecimalString(toRate), temp]
  }

  /** The exception `resample` raises when its ffmpeg call did not exit with
      status 0. After a launch error with ENOENT the program name alone is
      launched once more: if that launch fails too, the exception says the
      decoder is missing and carries the second launch error. */
  function ResampleError(cmd: Argv, run: Argv -> CallOutcome): Error
    requires cmd != []
  {
    match run(cmd)
    case Exited(_, _) => DecoderException(ResamplingFailed, cmd, None)
    case LaunchFailed(errno) =>
      var probe := run([cmd[0]]);
      if errno == ENOENT && probe.LaunchFailed? then
        DecoderException(ResamplerNotFound(cmd[0]), cmd, Some(probe.errno))
      else DecoderException(ResamplingUnknown, cmd, Some(errno))
  }

  /** The filesystem after the ffmpeg call of `resample`: the temporary file
      appears if ffmpeg wrote it, and is removed after a launch error. */
  function ResampledFiles(fs: FileSystem, temp: Path, o: CallOutcome): (fs': FileSystem)
    ensures fs' - {temp} == fs - {temp}
    ensures temp in fs' <==> (temp in fs && o.Exited?) || WritesOutput(o)
  {
    match o
    case Exited(_, wrote) => if wrote then fs + {temp} else fs
    case LaunchFailed(_) => fs - {temp}
  }

  /** `resample(filename, to_samplerate)`: the resampled file is written to
      the fresh name `temp`, which is returned when ffmpeg exits with status
      0. `invoked` lists the command lines launched: the ffmpeg call, and
      after a launch error with ENOENT the bare program name. */
  method Resample(fs: FileSystem, filename: Path, toRate: nat, temp: Path, run: Argv -> CallOutcome)
    returns (r: Result<Path>, fs': FileSystem, invoked: seq<Argv>)
    ensures var cmd := ResampleCommand(filename, toRate, temp);
      && (r.Ok? <==> IsSuccess(run(cmd)))
      && (r.Ok? ==> r.value == temp)
      && (r.Raised? ==> r.err == ResampleError(cmd, run))
      && fs' == ResampledFiles(fs, temp, run(cmd))
      && invoked == [cmd] + (if IsMissingBinary(run(cmd)) then [["ffmpeg"]] else [])
  {
    var cmd := ResampleCommand(filename, toRate, temp);
    invoked := [cmd];
    match run(cmd)
    case Exited(code, wrote) =>
      fs' := if wrote then fs + {temp} else fs;
      if code != 0 {
        r := Raised(DecoderException(ResamplingFailed, cmd, None));
        return;
      }
      r := Ok(temp);
    case LaunchFailed(errno) =>
      fs' := fs - {temp};
      if errno == ENOENT {
        invoked := invoked + [[cmd[0]]];
        var probe := run([cmd[0]]);
        if probe.LaunchFailed? {
          r := Raised(DecoderException(ResamplerNotFound(cmd[0]), cmd, Some(probe.errno)));
          return;
        }
      }
      r := Raised(DecoderException(ResamplingUnknown, cmd, Some(errno)));
  }

  /** With ffmpeg not installed, `resample` reports exactly that and leaves
      no temporary file behind. */
  lemma ResampleWithoutFfmpeg(fs: FileSystem, filename: Path, toRate: nat, temp: Path, run: Argv -> CallOutcome)
    requires forall argv :: IsMissingBinary(run(argv))
    ensures var cmd := ResampleCommand(filename, toRate, temp);
      && Message(ResampleError(cmd, run)) == "Decoder not found. Please install ffmpeg"
      && ResampleError(cmd, run).origErrno == Some(ENOENT)
      && temp !in ResampledFiles(fs, temp, run(cmd))
  {
    var cmd := ResampleCommand(filename, toRate, temp);
    assert cmd[0] == "ffmpeg";
    assert IsMissingBinary(run(cmd)) && IsMissingBinary(run([cmd[0]]));
  }

  /** What the parser yields for a path: a file that does not exist cannot
      be read. */
  function ReadWav(fs: FileSystem, readwav: Path -> WavParse, p: Path): Result<WavContents> {
    if p in fs && readwav(p).Parsed? then Ok(readwav(p).wav) else Raised(WavUnreadable)
  }

  /** The triple `wav_read` returns for the parsed contents. */
  function Finish(wav: WavContents, normalize: bool): (a: Audio)
    ensures a.rate == wav.rate && a.width == wav.width
    ensures a.data.Scaled? <==> normalize
    ensures a.data.Raw? ==> a.data.ints == wav.frames
    ensures a.data.Scaled? ==> a.data.reals == Normalize(wav.frames, wav.width)
  {
    Audio(wav.rate, wav.width, if normalize then Scaled(Normalize(wav.frames, wav.width)) else Raw(wav.frames))
  }

  function Loaded(w: Result<WavContents>, normalize: bool): Result<Audio> {
    match w
    case Ok(wav) => Ok(Finish(wav, normalize))
    case Raised(e) => Raised(e)
  }

  /** The specification of `wav_read`: the result and the filesystem after
      it. */
  function WavReadResult(fs: FileSystem, filename: Path, normalize: bool, autoResample: bool,
                         readwav: Path -> WavParse, run: Argv -> CallOutcome, resampleTemp: Path)
    : (Result<Audio>, FileSystem)
  {
    if filename !in fs then (Raised(FileMissing(filename)), fs)
    else
      var first := ReadWav(fs, readwav, filename);
      if first.Raised? || !NeedsResample(autoResample, first.value.rate) then (Loaded(first, normalize), fs)
      else
        var cmd := ResampleCommand(filename, ResampleTarget(first.value.rate), resampleTemp);
        var fs2 := ResampledFiles(fs, resampleTemp, run(cmd));
        if !IsSuccess(run(cmd)) then (Raised(ResampleError(cmd, run)), fs2)
        else (Loaded(ReadWav(fs2, readwav, resampleTemp), normalize), fs2)
  }

  /** The command lines `wav_read` launches: none when the file is missing,
      does not parse or needs no resampling; otherwise the ffmpeg call at the
      target rate and, after a launch error with ENOENT, the bare program. */
  function WavReadLaunches(fs: FileSystem, filename: Path, autoResample: bool, readwav: Path -> WavParse,
                           run: Argv -> CallOutcome, resampleTemp: Path): seq<Argv>
  {
    var first := ReadWav(fs, readwav, filename);
    if first.Raised? || !NeedsResample(autoResample, first.value.rate) then []
    else
      var cmd := ResampleCommand(filename, ResampleTarget(first.value.rate), resampleTemp);
      [cmd] + (if IsMissingBinary(run(cmd)) then [["ffmpeg"]] else [])
  }

  /** `wav_read(filename, normalize, auto_resample)`: a missing file raises
      `NameError`; a file at a rate other than 11025, 22050 or 44100 Hz is
      resampled to the temporary file `resampleTemp`, which is read in its
      place and not deleted. `invoked` lists the command lines launched:
      ffmpeg runs exactly when the file is resampled, at the target rate. */
  method WavRead(fs: FileSystem, filename: Path, normalize: bool, autoResample: bool,
                 readwav: Path -> WavParse, run: Argv -> CallOutcome, resampleTemp: Path)
    returns (r: Result<Audio>, fs': FileSystem, invoked: seq<Argv>)
    ensures (r, fs') == WavReadResult(fs, filename, normalize, autoResample, readwav, run, resampleTemp)
    ensures filename !in fs ==> r == Raised(FileMissing(filename))
    ensures fs' - {resampleTemp} == fs - {resampleTemp}
    ensures r.Ok? ==> (r.value.data.Scaled? <==> normalize)
    ensures var first := ReadWav(fs, readwav, filename);
      invoked != [] <==> filename in fs && first.Ok? && NeedsResample(autoResample, first.value.rate)
    ensures var first := ReadWav(fs, readwav, filename);
      invoked != [] ==> invoked[0] == ResampleCommand(filename, ResampleTarget(first.value.rate), resampleTemp)
    ensures invoked == WavReadLaunches(fs, filename, autoResample, readwav, run, resampleTemp)
  {
    fs', invoked := fs, [];
    if filename !in fs {
      r := Raised(FileMissing(filename));
      return;
    }
    var wav := ReadWav(fs', readwav, filename);
    if wav.Raised? {
      r := Raised(wav.err);
      return;
    }
    if NeedsResample(autoResample, wav.value.rate) {
      var resampled;
      resampled, fs', invoked := Resample(fs', filename, ResampleTarget(wav.value.rate), resampleTemp, run);
      if resampled.Raised? {
        r := Raised(resampled.err);
        return;
      }
      wav := ReadWav(fs', readwav, resampled.value);
      if wav.Raised? {
        r := Raised(wav.err);
        return;
      }
    }
    r := Ok(Finish(wav.value, normalize));
  }

  /** A file that needs no resampling (automatic resampling off, or one of
      the three standard rates) is read as it is, and the filesystem is
      unchanged. */
  lemma NoResampleReadsDirectly(fs: FileSystem, filename: Path, normalize: bool, autoResample: bool,
                                readwav: Path -> WavParse, run: Argv -> CallOutcome, resampleTemp: Path)
    requires filename in fs && readwav(filename).Parsed?
    requires !NeedsResample(autoResample, readwav(filename).wav.rate)
    ensures WavReadResult(fs, filename, normalize, autoResample, readwav, run, resampleTemp)
      == (Ok(Finish(readwav(filename).wav, normalize)), fs)
  {
  }

  /** Normalised output of a signed WAV file lies in [-1, 1). */
  lemma WavReadNormalizedRange(fs: FileSystem, filename: Path, autoResample: bool,
                               readwav: Path -> WavParse, run: Argv -> CallOutcome, resampleTemp: Path)
    requires forall p :: readwav(p).Parsed? ==> SignedSamples(readwav(p).wav.frames, readwav(p).wav.width)
    ensures var r := WavReadResult(fs, filename, true, autoResample, readwav, run, resampleTemp).0;
      r.Ok? ==> (r.value.data.Scaled? &&
        forall i, j :: 0 <= i < |r.value.data.reals| && 0 <= j < |r.value.data.reals[i]| ==>
          -1.0 <= r.value.data.reals[i][j] < 1.0)
  {
    var (r, _) := WavReadResult(fs, filename, true, autoResample, readwav, run, resampleTemp);
    if r.Ok? {
      var p := if filename in fs && ReadWav(fs, readwav, filename).Ok?
                  && NeedsResample(autoResample, ReadWav(fs, readwav, filename).value.rate)
               then resampleTemp else filename;
      assert readwav(p).Parsed? && r.value == Finish(readwav(p).wav, true);
      NormalizeInUnitRange(readwav(p).wav.frames, readwav(p).wav.width);
    }
  }

  /** The resampled file is not deleted: once ffmpeg wrote it, it is still
      there after `wav_read` returns, whatever the result. */
  lemma ResampledFileSurvives(fs: FileSystem, filename: Path, normalize: bool,
                              readwav: Path -> WavParse, run: Argv -> CallOutcome, resampleTemp: Path)
    requires filename in fs && readwav(filename).Parsed?
    requires NeedsResample(true, readwav(filename).wav.rate)
    requires WritesOutput(run(ResampleCommand(filename, ResampleTarget(readwav(filename).wav.rate), resampleTemp)))
    ensures resampleTemp in WavReadResult(fs, filename, normalize, true, readwav, run, resampleTemp).1
  {
  }
}
