/** `decode`: an ordered fallback over three external decoders (ffmpeg,
    mpg123, lame), each tried only if its type collection contains the
    lower-cased extension of the input, stopping at the first one that exits
    with status 0.

    The selection is specified by the function `Attempt` over the decoder
    table; the method `Decode` runs the loop of the source and is proved to
    compute exactly what `Attempt` says, and the lemmas below state what
    `Attempt` promises: which decoders are tried, in which order, and which
    outcome ends the search. */
module Decoding {
  import opened World
  import opened Paths

  /** A decoder's type collection. ffmpeg's is a tuple of extensions, where
      `ext in types` compares whole elements; mpg123's and lame's are a
      plain string, where `ext in types` is a substring test. */
  datatype TypeSet =
    | Extensions(exts: seq<string>)
    | ExtensionString(s: string)

  /** A command descriptor: the program, its arguments, its type collection. */
  datatype Decoder = Decoder(program: string, args: seq<string>, types: TypeSet) {
    function Command(): Argv {
      [program] + args
    }
  }

  predicate Supports(types: TypeSet, ext: string) {
    match types
    case Extensions(exts) => ext in exts
    case ExtensionString(s) => IsSubstring(ext, s)
  }

  /** The three decoders in the order they are tried, with the command lines
      they are invoked with. */
  function DecoderTable(inFilename: Path, outFilename: Path): seq<Decoder> {
    [ Decoder("ffmpeg", ["-v", "1", "-y", "-i", inFilename, outFilename],
              Extensions([".mp3", ".aif", ".aiff", ".m4a"])),
      Decoder("mpg123", ["-q", "-w", outFilename, inFilename], ExtensionString(".mp3")),
      Decoder("lame", ["--quiet", "--decode", inFilename, outFilename], ExtensionString(".mp3")) ]
  }

  /** The command lines of the decoders that accept `ext`, in table order. */
  function Candidates(cmds: seq<Decoder>, ext: string): seq<Argv> {
    if cmds == [] then []
    else (if Supports(cmds[0].types, ext) then [cmds[0].Command()] else [])
         + Candidates(cmds[1..], ext)
  }

  function Programs(cmds: seq<Decoder>): seq<string> {
    if cmds == [] then [] else [cmds[0].program] + Programs(cmds[1..])
  }

  /** How the search ended. */
  datatype Status =
    | Succeeded
    | HardFailure(err: Error)
    | Exhausted

  /** The end of the search and the command lines invoked, in order. */
  datatype Trial = Trial(status: Status, tried: seq<Argv>)

  /** The specification of the search: skip decoders that do not accept
      `ext`; stop at an exit status 0; raise `DecoderException` at once for a
      nonzero exit status or a launch error other than ENOENT; move on to
      the next decoder only when the program is missing (ENOENT). */
  function Attempt(cmds: seq<Decoder>, ext: string, run: Argv -> CallOutcome): Trial {
    if cmds == [] then Trial(Exhausted, [])
    else if !Supports(cmds[0].types, ext) then Attempt(cmds[1..], ext, run)
    else
      var argv := cmds[0].Command();
      var o := run(argv);
      if IsSuccess(o) then Trial(Succeeded, [argv])
      else if IsMissingBinary(o) then
        var rest := Attempt(cmds[1..], ext, run);
        Trial(rest.status, [argv] + rest.tried)
      else Trial(HardFailure(DecoderException(DecodingFailed, argv, OrigErrno(o))), [argv])
  }

  /** What `decode` returns or raises for a search that ended in `status`. */
  function Report(status: Status, ext: string, cmds: seq<Decoder>): Result<()> {
    match status
    case Succeeded => Ok(())
    case HardFailure(e) => Raised(e)
    case Exhausted => Raised(NoDecoderFound(ext, Programs(cmds)))
  }

  /** The first `n` invocations in `tried` all found their program missing. */
  predicate MissingUpTo(tried: seq<Argv>, run: Argv -> CallOutcome, n: int) {
    forall k :: 0 <= k < n && k < |tried| ==> IsMissingBinary(run(tried[k]))
  }

  /** Some invocation in `tried` wrote the output file. */
  predicate WroteOutput(tried: seq<Argv>, run: Argv -> CallOutcome) {
    exists k :: 0 <= k < |tried| && WritesOutput(run(tried[k]))
  }

  function OutputName(inFilename: Path, outFilename: Option<Path>): Path {
    if outFilename.None? then DefaultOutName(inFilename) else outFilename.value
  }

  /** `decode(in_filename, out_filename)`: derives the extension and the
      output name, then runs the search over the decoder table; a plain
      `OSError` naming every program is raised when no decoder ran. */
  method Decode(fs: FileSystem, inFilename: Path, outFilename: Option<Path>, run: Argv -> CallOutcome)
    returns (r: Result<()>, fs': FileSystem, tried: seq<Argv>)
    ensures tried == DecodeTrial(inFilename, outFilename, run).tried
    ensures r == Report(DecodeTrial(inFilename, outFilename, run).status, LowerExt(inFilename),
                        DecoderTable(inFilename, OutputName(inFilename, outFilename)))
    ensures fs' == if WroteOutput(tried, run) then fs + {OutputName(inFilename, outFilename)} else fs
  {
    var ext := LowerExt(inFilename);
    var out := OutputName(inFilename, outFilename);
    var cmds := DecoderTable(inFilename, out);
    var success;
    success, r, fs', tried := TryDecoders(fs, cmds, ext, out, run);
    if r.Ok? && !success {
      r := Raised(NoDecoderFound(ext, Programs(cmds)));
    }
  }

  /** The search `decode` runs for these file names. */
  function DecodeTrial(inFilename: Path, outFilename: Option<Path>, run: Argv -> CallOutcome): Trial {
    Attempt(DecoderTable(inFilename, OutputName(inFilename, outFilename)), LowerExt(inFilename), run)
  }

  /** The loop of `decode` over `zip(cmd_list, cmd_types)`, with its
      `success` flag and early `break`: each decoder that accepts `ext` is
      invoked through the oracle `run`, and one that writes its output adds
      `out` to the filesystem. `r` is `Ok` while no exception was raised. */
  method TryDecoders(fs: FileSystem, cmds: seq<Decoder>, ext: string, out: Path, run: Argv -> CallOutcome)
    returns (success: bool, r: Result<()>, fs': FileSystem, tried: seq<Argv>)
    ensures var t := Attempt(cmds, ext, run);
      && tried == t.tried
      && success == (t.status == Succeeded)
      && (t.status.HardFailure? ==> r == Raised(t.status.err))
      && (!t.status.HardFailure? ==> r == Ok(()))
      && fs' == (if WroteOutput(tried, run) then fs + {out} else fs)
  {
    ghost var spec := Attempt(cmds, ext, run);
    success, r := false, Ok(());
    tried, fs' := [], fs;
    var i := 0;
    while i < |cmds|
      invariant 0 <= i <= |cmds|
      invariant spec == Resume(tried, Attempt(cmds[i..], ext, run))
      invariant MissingUpTo(tried, run, |tried|)
      invariant !success && r == Ok(()) && fs' == fs
    {
      var cmd := cmds[i];
      AttemptStep(cmds, i, ext, run);
      if Supports(cmd.types, ext) {
        var argv := cmd.Command();
        WroteOutputLast(tried, argv, run);
        tried := tried + [argv];
        match run(argv)
        case Exited(code, wrote) =>
          if wrote {
            fs' := fs' + {out};
          }
          if code != 0 {
            r := Raised(DecoderException(DecodingFailed, argv, None));
            return;
          }
          success := true;
        case LaunchFailed(errno) =>
          if errno != ENOENT {
            r := Raised(DecoderException(DecodingFailed, argv, Some(errno)));
            return;
          }
          assert MissingUpTo(tried, run, |tried|);
      }
      if success {
        break;
      }
      i := i + 1;
    }
    if !success {
      assert cmds[i..] == [];
      NothingWritten(tried, run);
    }
  }

  /** The search resumed after the invocations `tried`. */
  function Resume(tried: seq<Argv>, rest: Trial): Trial {
    Trial(rest.status, tried + rest.tried)
  }

  /** One step of the search at decoder `i`. */
  lemma AttemptStep(cmds: seq<Decoder>, i: int, ext: string, run: Argv -> CallOutcome)
    requires 0 <= i < |cmds|
    ensures var argv := cmds[i].Command();
            var o := run(argv);
            var rest := Attempt(cmds[i + 1..], ext, run);
      Attempt(cmds[i..], ext, run) ==
        if !Supports(cmds[i].types, ext) then rest
        else if IsSuccess(o) then Trial(Succeeded, [argv])
        else if IsMissingBinary(o) then Resume([argv], rest)
        else Trial(HardFailure(DecoderException(DecodingFailed, argv, OrigErrno(o))), [argv])
  {
    assert cmds[i..][0] == cmds[i] && cmds[i..][1..] == cmds[i + 1..];
  }

  lemma WroteOutputLast(tried: seq<Argv>, argv: Argv, run: Argv -> CallOutcome)
    requires MissingUpTo(tried, run, |tried|)
    ensures WroteOutput(tried + [argv], run) <==> WritesOutput(run(argv))
  {
    var s := tried + [argv];
    assert forall j :: 0 <= j < |tried| ==> s[j] == tried[j];
    assert s[|tried|] == argv;
  }

  lemma NothingWritten(tried: seq<Argv>, run: Argv -> CallOutcome)
    requires MissingUpTo(tried, run, |tried|)
    ensures !WroteOutput(tried, run)
  {
  }

  /** `decode` invokes only decoders whose type collection accepts the
      extension, in table order: the command lines tried are a prefix of the
      candidates. */
  lemma {:induction false} AttemptFollowsCandidates(cmds: seq<Decoder>, ext: string, run: Argv -> CallOutcome)
    ensures Attempt(cmds, ext, run).tried <= Candidates(cmds, ext)
  {
    if cmds != [] {
      AttemptFollowsCandidates(cmds[1..], ext, run);
    }
  }

  /** Every invocation before the last one found its program missing. */
  lemma {:induction false} AttemptFallsThroughOnlyOnMissing(cmds: seq<Decoder>, ext: string, run: Argv -> CallOutcome)
    ensures var t := Attempt(cmds, ext, run);
      MissingUpTo(t.tried, run, |t.tried| - 1)
  {
    if cmds == [] {
    } else if !Supports(cmds[0].types, ext) {
      AttemptFallsThroughOnlyOnMissing(cmds[1..], ext, run);
      assert Attempt(cmds, ext, run) == Attempt(cmds[1..], ext, run);
    } else if IsMissingBinary(run(cmds[0].Command())) {
      AttemptFallsThroughOnlyOnMissing(cmds[1..], ext, run);
      var argv := cmds[0].Command();
      var rest := Attempt(cmds[1..], ext, run);
      var tried := Attempt(cmds, ext, run).tried;
      assert tried == [argv] + rest.tried;
      forall j | 0 <= j < |tried| - 1 ensures IsMissingBinary(run(tried[j])) {
        if j > 0 {
          assert tried[j] == rest.tried[j - 1];
        }
      }
    } else {
      assert |Attempt(cmds, ext, run).tried| == 1;
    }
  }

  /** The last invocation decides how the search ends: exit status 0 is
      success; a missing program, or no candidate at all, is exhaustion;
      anything else is a `DecoderException` carrying that command line and
      the launch error's `errno`, if any. */
  lemma {:induction false} AttemptEndsWithLast(cmds: seq<Decoder>, ext: string, run: Argv -> CallOutcome)
    ensures var t := Attempt(cmds, ext, run);
      && (t.status == Succeeded <==> t.tried != [] && IsSuccess(run(t.tried[|t.tried| - 1])))
      && (t.status == Exhausted <==> t.tried == [] || IsMissingBinary(run(t.tried[|t.tried| - 1])))
      && (t.status.HardFailure? ==>
            var last := t.tried[|t.tried| - 1];
            t.status.err == DecoderException(DecodingFailed, last, OrigErrno(run(last))))
  {
    if cmds != [] {
      AttemptEndsWithLast(cmds[1..], ext, run);
      var rest := Attempt(cmds[1..], ext, run);
      if Supports(cmds[0].types, ext) && IsMissingBinary(run(cmds[0].Command())) && rest.tried != [] {
        assert ([cmds[0].Command()] + rest.tried)[|rest.tried|] == rest.tried[|rest.tried| - 1];
      }
    }
  }

  /** The search is exhausted exactly when every candidate was invoked and
      every one of them found its program missing. */
  lemma {:induction false} AttemptExhaustedIff(cmds: seq<Decoder>, ext: string, run: Argv -> CallOutcome)
    ensures var t := Attempt(cmds, ext, run);
      t.status == Exhausted <==>
        t.tried == Candidates(cmds, ext) && MissingUpTo(t.tried, run, |t.tried|)
  {
    if cmds != [] {
      AttemptExhaustedIff(cmds[1..], ext, run);
      AttemptFollowsCandidates(cmds[1..], ext, run);
      var rest := Attempt(cmds[1..], ext, run);
      var argv := cmds[0].Command();
      var tried := Attempt(cmds, ext, run).tried;
      if !Supports(cmds[0].types, ext) {
        assert Attempt(cmds, ext, run) == rest;
      } else {
        assert Candidates(cmds, ext) == [argv] + Candidates(cmds[1..], ext);
        if IsMissingBinary(run(argv)) {
          assert tried == [argv] + rest.tried;
          if MissingUpTo(rest.tried, run, |rest.tried|) {
            forall j | 0 <= j < |tried| ensures IsMissingBinary(run(tried[j])) {
              if j > 0 {
                assert tried[j] == rest.tried[j - 1];
              }
            }
          }
          if MissingUpTo(tried, run, |tried|) {
            forall j | 0 <= j < |rest.tried| ensures IsMissingBinary(run(rest.tried[j])) {
              assert tried[j + 1] == rest.tried[j];
            }
          }
        } else {
          assert tried == [argv] && tried[0] == argv;
        }
      }
    }
  }

  /** When the first candidate exits with status 0, it is the only decoder
      invoked. */
  lemma {:induction false} FirstCandidateWins(cmds: seq<Decoder>, ext: string, run: Argv -> CallOutcome)
    requires Candidates(cmds, ext) != []
    requires IsSuccess(run(Candidates(cmds, ext)[0]))
    ensures Attempt(cmds, ext, run) == Trial(Succeeded, [Candidates(cmds, ext)[0]])
  {
    if !Supports(cmds[0].types, ext) {
      FirstCandidateWins(cmds[1..], ext, run);
    }
  }

  /** The lemma that makes the substring quirk explicit: for an extension as
      `os.path.splitext` returns it (empty or starting with a dot), the test
      `ext in '.mp3'` holds exactly for the prefixes of `.mp3`. */
  lemma Mp3StringMatches(ext: string)
    requires ext == [] || ext[0] == '.'
    ensures IsSubstring(ext, ".mp3") <==> ext in {"", ".", ".m", ".mp", ".mp3"}
  {
    if ext != [] {
      NoSubstringWithoutFirstChar(ext, "mp3");
      assert ".mp3"[..1] == "." && ".mp3"[..2] == ".m" && ".mp3"[..3] == ".mp" && ".mp3"[..4] == ".mp3";
      if ext <= ".mp3" {
        assert ext == ".mp3"[..|ext|];
      }
    }
  }

  lemma {:induction false} NoSubstringWithoutFirstChar(a: string, s: string)
    requires a != [] && a[0] !in s
    ensures !IsSubstring(a, s)
  {
    if s != [] {
      NoSubstringWithoutFirstChar(a, s[1..]);
    }
  }

  /** Which decoders `decode` considers, by extension: all three for `.mp3`;
      only ffmpeg for `.aif`, `.aiff` and `.m4a`; only mpg123 and lame for
      the empty extension, `.`, `.m` and `.mp` (the substring quirk); none
      for any other extension. */
  lemma TableCandidates(inFilename: Path, outFilename: Path, ext: string)
    requires ext == [] || ext[0] == '.'
    ensures var t := DecoderTable(inFilename, outFilename);
            var c := Candidates(t, ext);
      && (ext == ".mp3" ==> c == [t[0].Command(), t[1].Command(), t[2].Command()])
      && (ext in {".aif", ".aiff", ".m4a"} ==> c == [t[0].Command()])
      && (ext in {"", ".", ".m", ".mp"} ==> c == [t[1].Command(), t[2].Command()])
      && (ext !in {"", ".", ".m", ".mp", ".mp3", ".aif", ".aiff", ".m4a"} ==> c == [])
  {
    Mp3StringMatches(ext);
    var t := DecoderTable(inFilename, outFilename);
    var ff := if ext in [".mp3", ".aif", ".aiff", ".m4a"] then [t[0].Command()] else [];
    var mp := if IsSubstring(ext, ".mp3") then [t[1].Command()] else [];
    var la := if IsSubstring(ext, ".mp3") then [t[2].Command()] else [];
    assert Candidates(t[2..], ext) == la by {
      assert t[2..][1..] == [];
    }
    assert Candidates(t[1..], ext) == mp + la by {
      assert t[1..][1..] == t[2..];
    }
    assert Candidates(t, ext) == ff + mp + la;
  }

  /** With no decoder program installed, `decode` tries every candidate and
      raises the plain `OSError` (not a `DecoderException`), whose message
      names ffmpeg, mpg123 and lame. */
  lemma NoDecoderInstalled(inFilename: Path, outFilename: Path, ext: string, run: Argv -> CallOutcome)
    requires forall argv :: IsMissingBinary(run(argv))
    ensures var cmds := DecoderTable(inFilename, outFilename);
            var t := Attempt(cmds, ext, run);
      && t == Trial(Exhausted, Candidates(cmds, ext))
      && Report(t.status, ext, cmds).err.NoDecoderFound?
      && IsSubstring("ffmpeg, mpg123, lame", Message(Report(t.status, ext, cmds).err))
  {
    var cmds := DecoderTable(inFilename, outFilename);
    AllMissingExhausts(cmds, ext, run);
    TableProgramNames(inFilename, outFilename);
    NoDecoderMessageNames(ext, Programs(cmds));
  }

  /** With every program missing, the search tries every candidate and ends
      exhausted. */
  lemma {:induction false} AllMissingExhausts(cmds: seq<Decoder>, ext: string, run: Argv -> CallOutcome)
    requires forall argv :: IsMissingBinary(run(argv))
    ensures Attempt(cmds, ext, run) == Trial(Exhausted, Candidates(cmds, ext))
  {
    if cmds != [] {
      AllMissingExhausts(cmds[1..], ext, run);
    }
  }

  lemma TableProgramNames(inFilename: Path, outFilename: Path)
    ensures Join(", ", Programs(DecoderTable(inFilename, outFilename))) == "ffmpeg, mpg123, lame"
  {
    var cmds := DecoderTable(inFilename, outFilename);
    assert Programs(cmds) == ["ffmpeg", "mpg123", "lame"] by {
      assert cmds[1..][1..][1..] == [];
      assert Programs(cmds[1..][1..]) == ["lame"];
      assert Programs(cmds[1..]) == ["mpg123", "lame"];
    }
    assert Join(", ", ["lame"]) == "lame";
    assert Join(", ", ["mpg123", "lame"]) == "mpg123, lame" by {
      assert ["mpg123", "lame"][1..] == ["lame"];
    }
    assert Join(", ", ["ffmpeg", "mpg123", "lame"]) == "ffmpeg, mpg123, lame" by {
      assert ["ffmpeg", "mpg123", "lame"][1..] == ["mpg123", "lame"];
    }
  }

  /** A search that ends exhausted wrote no output file. */
  lemma ExhaustedWritesNothing(cmds: seq<Decoder>, ext: string, run: Argv -> CallOutcome)
    requires Attempt(cmds, ext, run).status == Exhausted
    ensures !WroteOutput(Attempt(cmds, ext, run).tried, run)
  {
    AttemptExhaustedIff(cmds, ext, run);
    NothingWritten(Attempt(cmds, ext, run).tried, run);
  }
}
