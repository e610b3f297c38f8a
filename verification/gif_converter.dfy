/** The two-pass GIF conversion: a palette pass, then a pass that renders
    the GIF with that palette. The palette is removed on every way out of
    the conversion, and the GIF on every failure. Each ffmpeg run is its
    outcome (exit code, standard error, whether its output file was
    written); `ffmpeg` is where `shutil.which` found the binary, if it did. */
module GifConverter {
  import opened Wrappers
  import opened Text
  import opened Errors
  import FileSystem

  const GifFps: nat := 12
  const GifWidth: nat := 480

  /** The longest stretch of ffmpeg's standard error an error message keeps. */
  const StderrLimit: nat := 200

  datatype FfmpegRun =
    | Exited(code: int, stderr: string, wroteOutput: bool)
    | Crashed(className: string)

  function PalettePath(video: string): string {
    FileSystem.SplitExt(video).0 + "_palette.png"
  }

  function GifPath(video: string): string {
    FileSystem.SplitExt(video).0 + ".gif"
  }

  /** The palette never overwrites the input: the input's extension, if
      any, starts with `.`, and the palette's suffix does not. */
  lemma PaletteIsNotInput(video: string)
    ensures PalettePath(video) != video
  {
    var (base, ext) := FileSystem.SplitExt(video);
    assert |PalettePath(video)| == |base| + 12;
    if |ext| == 12 {
      assert PalettePath(video)[|base|] == '_' != video[|base|];
    }
  }

  function ScaleFilter(): string {
    "fps=" + NatToString(GifFps) + ",scale=" + NatToString(GifWidth) + ":-1:flags=lanczos"
  }

  function PaletteCommand(ffmpeg: string, video: string): seq<string> {
    [ffmpeg, "-i", video, "-vf", ScaleFilter() + ",palettegen", "-y", PalettePath(video)]
  }

  function GifCommand(ffmpeg: string, video: string): seq<string> {
    [ffmpeg, "-i", video, "-i", PalettePath(video), "-lavfi", ScaleFilter() + "[x];[x][1:v]paletteuse", "-y", GifPath(video)]
  }

  const NotInstalled: string := "ffmpeg is not installed or not found in PATH."

  /** `run_ffmpeg_command`: no error for a zero exit; a non-zero exit
      reports the stripped standard error cut to its first 200 characters. */
  function RunError(ffmpeg: Option<string>, run: FfmpegRun): (r: Option<Error>)
    ensures ffmpeg.None? ==> r == Some(ConversionError(NotInstalled))
    ensures r.None? <==> ffmpeg.Some? && run.Exited? && run.code == 0
    ensures ffmpeg.Some? && run.Exited? && run.code != 0 ==>
      r.Some? && r.value.ConversionError? && StartsWith(r.value.msg, "ffmpeg failed: ")
      && |r.value.msg| == |"ffmpeg failed: "| + (if |Strip(run.stderr)| <= StderrLimit then |Strip(run.stderr)| else StderrLimit)
      && StartsWith(Strip(run.stderr), r.value.msg[|"ffmpeg failed: "|..])
    ensures ffmpeg.Some? && run.Exited? && run.code != 0 ==>
      r == Some(ConversionError("ffmpeg failed: " + Take(Strip(run.stderr), StderrLimit)))
    // an ffmpeg that cannot be started raises past the exit-code check
    ensures ffmpeg.Some? && run.Crashed? ==> r == Some(OtherError(run.className, ""))
  {
    match ffmpeg
    case None => Some(ConversionError(NotInstalled))
    case Some(_) =>
      match run
      case Exited(code, stderr, _) =>
        if code != 0 then
          var kept := Take(Strip(stderr), StderrLimit);
          assert ("ffmpeg failed: " + kept)[|"ffmpeg failed: "|..] == kept;
          Some(ConversionError("ffmpeg failed: " + kept))
        else None
      case Crashed(name) => Some(OtherError(name, ""))
  }

  /** The file set after a run that may have written `out`. */
  function Written(fs: FileSystem.FileSet, run: FfmpegRun, out: string): FileSystem.FileSet {
    if run.Exited? && run.wroteOutput then fs + {out} else fs
  }

  datatype Conversion = Conversion(result: Result<string, Error>, fs: FileSystem.FileSet, commands: seq<seq<string>>)

  /** The `except` and `finally` clauses: a failure removes the GIF and
      keeps a ConversionError as it is, wrapping any other error by class
      name; the palette goes in every case. */
  function Finish(res: Result<string, Error>, fs: FileSystem.FileSet, commands: seq<seq<string>>, video: string): (r: Conversion)
    ensures r.commands == commands
    ensures PalettePath(video) !in r.fs
    ensures res.Err? ==> GifPath(video) !in r.fs && r.result.Err? && r.result.error.ConversionError?
    ensures res.Err? && res.error.ConversionError? ==> r.result == res
    ensures res.Ok? ==> r.result == res
    ensures forall q :: q != PalettePath(video) && (res.Err? ==> q != GifPath(video)) ==> (q in r.fs <==> q in fs)
  {
    match res
    case Ok(_) => Conversion(res, FileSystem.CleanupFile(fs, PalettePath(video)), commands)
    case Err(e) =>
      var afterExcept := FileSystem.CleanupFile(fs, GifPath(video));
      var raised := if e.ConversionError? then e else ConversionError("Unexpected GIF conversion error: " + e.TypeName());
      Conversion(Err(raised), FileSystem.CleanupFile(afterExcept, PalettePath(video)), commands)
  }

  const MakedirsError: string := "[Errno 2] No such file or directory: ''"

  /** `convert_to_gif`. A missing input raises before anything runs, and so
      does `os.makedirs('')` for an input without a directory part; both
      are FileNotFoundErrors outside the cleanup. The GIF pass runs only
      after the palette pass succeeds. */
  function ConvertToGif(video: string, fs: FileSystem.FileSet, ffmpeg: Option<string>, pass1: FfmpegRun, pass2: FfmpegRun): (r: Conversion)
    ensures video !in fs ==> r == Conversion(Err(FileNotFoundError("Input video not found: " + video)), fs, [])
    ensures video in fs && !FileSystem.HasDirectory(GifPath(video)) ==> r == Conversion(Err(FileNotFoundError(MakedirsError)), fs, [])
    ensures video in fs && FileSystem.HasDirectory(GifPath(video)) ==>
      && PalettePath(video) !in r.fs
      && (r.result.Err? ==> GifPath(video) !in r.fs && r.result.error.ConversionError?)
      && (forall q :: q != PalettePath(video) && q != GifPath(video) ==> (q in r.fs <==> q in fs))
    ensures r.result.Ok? ==> r.result.value == GifPath(video) && GifPath(video) in r.fs
    ensures r.result.Ok? ==> RunError(ffmpeg, pass1).None? && RunError(ffmpeg, pass2).None?
    ensures |r.commands| <= 2
    ensures |r.commands| > 0 ==> ffmpeg.Some? && r.commands[0] == PaletteCommand(ffmpeg.value, video)
    ensures |r.commands| == 2 <==> video in fs && FileSystem.HasDirectory(GifPath(video)) && RunError(ffmpeg, pass1).None?
    ensures |r.commands| == 2 ==> r.commands[1] == GifCommand(ffmpeg.value, video)
  {
    if video !in fs then Conversion(Err(FileNotFoundError("Input video not found: " + video)), fs, [])
    else if !FileSystem.HasDirectory(GifPath(video)) then Conversion(Err(FileNotFoundError(MakedirsError)), fs, [])
    else
      var palette := PalettePath(video);
      var gif := GifPath(video);
      var commands1 := if ffmpeg.Some? then [PaletteCommand(ffmpeg.value, video)] else [];
      var fs1 := if ffmpeg.Some? then Written(fs, pass1, palette) else fs;
      match RunError(ffmpeg, pass1)
      case Some(e) => Finish(Err(e), fs1, commands1, video)
      case None =>
        var commands2 := commands1 + [GifCommand(ffmpeg.value, video)];
        var fs2 := Written(fs1, pass2, gif);
        match RunError(ffmpeg, pass2)
        case Some(e) => Finish(Err(e), fs2, commands2, video)
        case None =>
          if gif in fs2 then Finish(Ok(gif), fs2, commands2, video)
          else Finish(Err(ConversionError("GIF file not created after ffmpeg finished.")), fs2, commands2, video)
  }

  /** The input survives a conversion whose GIF path differs from it. */
  lemma InputSurvives(video: string, fs: FileSystem.FileSet, ffmpeg: Option<string>, pass1: FfmpegRun, pass2: FfmpegRun)
    requires video in fs && GifPath(video) != video
    ensures video in ConvertToGif(video, fs, ffmpeg, pass1, pass2).fs
  {
    PaletteIsNotInput(video);
  }

  /** An input that already has the `.gif` extension, in a directory, is its
      own GIF path. */
  lemma GifPathOfGif(dir: string, name: string)
    requires '.' !in name && '/' !in name && |name| > 0
    ensures GifPath(dir + "/" + name + ".gif") == dir + "/" + name + ".gif"
    ensures FileSystem.HasDirectory(GifPath(dir + "/" + name + ".gif"))
  {
    var video := dir + "/" + name + ".gif";
    var sep := FileSystem.LastIndexOf(video, '/');
    var dot := FileSystem.LastIndexOf(video, '.');
    assert video[|dir|] == '/';
    assert video[|video| - 4] == '.';
    assert sep == |dir| by {
      forall k | |dir| < k < |video| ensures video[k] != '/' {
        if k < |dir| + 1 + |name| {
          assert video[k] == name[k - |dir| - 1];
        }
      }
    }
    assert dot == |video| - 4;
    assert video[sep + 1] == name[0] && name[0] != '.';
    assert FileSystem.SplitExt(video) == (video[..dot], video[dot..]);
    assert video[dot..] == ".gif";
    assert GifPath(video) == video[..dot] + ".gif" == video;
  }

  /** So a failed conversion of such an input removes the input itself. */
  lemma GifInputRemovedOnFailure(dir: string, name: string, fs: FileSystem.FileSet, ffmpeg: Option<string>, pass1: FfmpegRun, pass2: FfmpegRun)
    requires '.' !in name && '/' !in name && |name| > 0
    requires dir + "/" + name + ".gif" in fs
    requires ConvertToGif(dir + "/" + name + ".gif", fs, ffmpeg, pass1, pass2).result.Err?
    ensures dir + "/" + name + ".gif" !in ConvertToGif(dir + "/" + name + ".gif", fs, ffmpeg, pass1, pass2).fs
  {
    GifPathOfGif(dir, name);
  }
}
