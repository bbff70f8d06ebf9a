/**
 * The video step of the Rust worker (src/main.rs `watermark_video` and the
 * size cap in front of it): the filter and argument list handed to ffmpeg,
 * how the encoder's result is judged, and the 100 MiB input ceiling.
 */
module VideoWatermark {
  import opened Common
  import opened Text

  /** 100 MiB: the largest body the worker hands to the encoder. */
  const MaxVideoBytes: nat := 100 * 1024 * 1024

  /** `body.len() as f64 / 1024.0 / 1024.0`, the size in MiB the worker compares. */
  function SizeMiB(len: nat): real {
    len as real / 1024.0 / 1024.0
  }

  /** `file_size_mb > 100.0`: the video is skipped before any encoding. */
  predicate Oversize(len: nat) {
    SizeMiB(len) > 100.0
  }

  /** The comparison in MiB is exactly "more than 104,857,600 bytes". */
  lemma OversizeExactly(len: nat)
    ensures Oversize(len) <==> len > MaxVideoBytes
    ensures MaxVideoBytes == 104857600
  {
    assert SizeMiB(len) == len as real / 1048576.0;
  }

  const FilterHead := "drawtext=text='"
  const FilterTail := "':fontcolor=white@0.4:fontsize=h/20:x=(w-text_w)/2:y=(h-text_h)/2"

  /**
   * The `-vf` filter: the text, unescaped, centred, white at 40% opacity,
   * font size a twentieth of the frame height.
   */
  function DrawTextFilter(text: string): string {
    FilterHead + text + FilterTail
  }

  /** What a reader of the filter takes as the drawn text: whatever stands between the fixed head and tail. */
  function FilterText(filter: string): Option<string> {
    if |FilterHead| + |FilterTail| <= |filter| && StartsWith(filter, FilterHead) && EndsWith(filter, FilterTail)
    then Some(filter[|FilterHead|..|filter| - |FilterTail|])
    else None
  }

  /** The text is carried verbatim: reading the filter back gives exactly the text put in. */
  lemma FilterRoundTrip(text: string)
    ensures FilterText(DrawTextFilter(text)) == Some(text)
  {
    var f := DrawTextFilter(text);
    assert f[..|FilterHead|] == FilterHead;
    assert f[|f| - |FilterTail|..] == FilterTail;
    assert f[|FilterHead|..|f| - |FilterTail|] == text;
  }

  /** The command line `watermark_video` runs ffmpeg with. */
  function EncoderArgs(input: string, output: string, text: string): seq<string> {
    ["-y",
     "-i", input,
     "-vf", DrawTextFilter(text),
     "-c:v", "libx264",
     "-crf", "30",
     "-preset", "ultrafast",
     "-threads", "1",
     "-movflags", "+faststart",
     "-an",
     output]
  }

  /** What an ffmpeg-style command line asks for: switches given, option values, and the output path. */
  datatype Invocation = Invocation(switches: set<string>, options: map<string, string>, output: Option<string>)

  const NoInvocation := Invocation({}, map[], None)

  /** Flags that stand alone: overwrite the output, drop the audio. */
  const Switches: set<string> := {"-y", "-an"}

  /** Flags that take the next argument as their value. */
  const ValueOptions: set<string> := {"-i", "-vf", "-c:v", "-crf", "-preset", "-threads", "-movflags"}

  /**
   * Reads a command line the way the encoder does: switches, options with
   * their values, and one trailing output path that does not look like a flag.
   */
  function ParseArgs(args: seq<string>, acc: Invocation): Option<Invocation>
    decreases |args|
  {
    if args == [] then Some(acc)
    else if args[0] in Switches then ParseArgs(args[1..], acc.(switches := acc.switches + {args[0]}))
    else if args[0] in ValueOptions then
      if |args| < 2 then None else ParseArgs(args[2..], acc.(options := acc.options[args[0] := args[1]]))
    else if |args| == 1 && !StartsWith(args[0], "-") then Some(acc.(output := Some(args[0])))
    else None
  }

  lemma ParseSwitch(flag: string, rest: seq<string>, acc: Invocation)
    requires flag in Switches
    ensures ParseArgs([flag] + rest, acc) == ParseArgs(rest, acc.(switches := acc.switches + {flag}))
  {
    assert ([flag] + rest)[1..] == rest;
  }

  lemma ParseOption(flag: string, value: string, rest: seq<string>, acc: Invocation)
    requires flag in ValueOptions && flag !in Switches
    ensures ParseArgs([flag, value] + rest, acc) == ParseArgs(rest, acc.(options := acc.options[flag := value]))
  {
    assert ([flag, value] + rest)[2..] == rest;
  }

  /** The settings the encoder is asked for, whatever the input path and the text. */
  function ExpectedInvocation(input: string, output: string, text: string): Invocation {
    Invocation(
      {"-y", "-an"},
      map["-i" := input, "-vf" := DrawTextFilter(text), "-c:v" := "libx264", "-crf" := "30",
          "-preset" := "ultrafast", "-threads" := "1", "-movflags" := "+faststart"],
      Some(output))
  }

  /**
   * The argument list asks for exactly: overwrite, no audio, the given input,
   * the drawtext filter, H.264 at CRF 30 with the ultrafast preset, one
   * thread, faststart layout, and the given output path.
   */
  lemma EncoderArgsMeaning(input: string, output: string, text: string)
    requires !StartsWith(output, "-")
    ensures ParseArgs(EncoderArgs(input, output, text), NoInvocation) == Some(ExpectedInvocation(input, output, text))
  {
    var f := DrawTextFilter(text);
    var tail := ["-c:v", "libx264", "-crf", "30", "-preset", "ultrafast", "-threads", "1", "-movflags", "+faststart", "-an", output];
    assert EncoderArgs(input, output, text) == ["-y"] + (["-i", input] + (["-vf", f] + tail));
    var a3 := ParseInputAndFilter(input, f, tail);
    ParseEncoderSettings(output, a3);
    ExpectedResult(input, output, text, a3);
  }

  lemma ExpectedResult(input: string, output: string, text: string, acc: Invocation)
    requires acc == Invocation({"-y"}, map[]["-i" := input]["-vf" := DrawTextFilter(text)], None)
    ensures Invocation(acc.switches + {"-an"},
                       acc.options["-c:v" := "libx264"]["-crf" := "30"]["-preset" := "ultrafast"]["-threads" := "1"]["-movflags" := "+faststart"],
                       Some(output))
         == ExpectedInvocation(input, output, text)
  {
    assert {"-y"} + {"-an"} == {"-y", "-an"};
    ExpectedOptions(input, DrawTextFilter(text), acc.options);
  }

  /** The overwrite switch, the input and the filter, read from the front of the command line. */
  lemma ParseInputAndFilter(input: string, f: string, tail: seq<string>) returns (acc: Invocation)
    ensures acc == Invocation({"-y"}, map[]["-i" := input]["-vf" := f], None)
    ensures ParseArgs(["-y"] + (["-i", input] + (["-vf", f] + tail)), NoInvocation) == ParseArgs(tail, acc)
  {
    ParseSwitch("-y", ["-i", input] + (["-vf", f] + tail), NoInvocation);
    var a1 := NoInvocation.(switches := NoInvocation.switches + {"-y"});
    ParseOption("-i", input, ["-vf", f] + tail, a1);
    var a2 := a1.(options := a1.options["-i" := input]);
    ParseOption("-vf", f, tail, a2);
    acc := a2.(options := a2.options["-vf" := f]);
    assert {} + {"-y"} == {"-y"};
  }

  lemma ExpectedOptions(input: string, f: string, m: map<string, string>)
    requires m == map[]["-i" := input]["-vf" := f]
    ensures m["-c:v" := "libx264"]["-crf" := "30"]["-preset" := "ultrafast"]["-threads" := "1"]["-movflags" := "+faststart"]
         == map["-i" := input, "-vf" := f, "-c:v" := "libx264", "-crf" := "30",
                "-preset" := "ultrafast", "-threads" := "1", "-movflags" := "+faststart"]
  {
  }

  lemma ParseEncoderSettings(output: string, acc: Invocation)
    requires !StartsWith(output, "-")
    ensures ParseArgs(["-c:v", "libx264", "-crf", "30", "-preset", "ultrafast", "-threads", "1", "-movflags", "+faststart", "-an", output], acc)
         == Some(Invocation(acc.switches + {"-an"},
                            acc.options["-c:v" := "libx264"]["-crf" := "30"]["-preset" := "ultrafast"]["-threads" := "1"]["-movflags" := "+faststart"],
                            Some(output)))
  {
    var r6 := ["-preset", "ultrafast", "-threads", "1", "-movflags", "+faststart", "-an", output];
    var r8 := ["-crf", "30"] + r6;
    assert ["-c:v", "libx264", "-crf", "30", "-preset", "ultrafast", "-threads", "1", "-movflags", "+faststart", "-an", output] == ["-c:v", "libx264"] + r8;
    ParseOption("-c:v", "libx264", r8, acc);
    var a1 := acc.(options := acc.options["-c:v" := "libx264"]);
    ParseOption("-crf", "30", r6, a1);
    var a2 := a1.(options := a1.options["-crf" := "30"]);
    ParsePresetTail(output, a2);
  }

  lemma ParsePresetTail(output: string, acc: Invocation)
    requires !StartsWith(output, "-")
    ensures ParseArgs(["-preset", "ultrafast", "-threads", "1", "-movflags", "+faststart", "-an", output], acc)
         == Some(Invocation(acc.switches + {"-an"},
                            acc.options["-preset" := "ultrafast"]["-threads" := "1"]["-movflags" := "+faststart"],
                            Some(output)))
  {
    var r2 := ["-movflags", "+faststart", "-an", output];
    var r4 := ["-threads", "1"] + r2;
    assert ["-preset", "ultrafast", "-threads", "1", "-movflags", "+faststart", "-an", output] == ["-preset", "ultrafast"] + r4;
    ParseOption("-preset", "ultrafast", r4, acc);
    var a1 := acc.(options := acc.options["-preset" := "ultrafast"]);
    ParseOption("-threads", "1", r2, a1);
    var a2 := a1.(options := a1.options["-threads" := "1"]);
    ParseOutputTail(output, a2);
  }

  lemma ParseOutputTail(output: string, acc: Invocation)
    requires !StartsWith(output, "-")
    ensures ParseArgs(["-movflags", "+faststart", "-an", output], acc)
         == Some(Invocation(acc.switches + {"-an"}, acc.options["-movflags" := "+faststart"], Some(output)))
  {
    assert ["-movflags", "+faststart", "-an", output] == ["-movflags", "+faststart"] + (["-an"] + [output]);
    ParseOption("-movflags", "+faststart", ["-an"] + [output], acc);
    var a1 := acc.(options := acc.options["-movflags" := "+faststart"]);
    ParseSwitch("-an", [output], a1);
    var a2 := a1.(switches := a1.switches + {"-an"});
    assert output !in Switches && output !in ValueOptions by {
      assert |output| < 1 || output[..1] != "-";
    }
    assert ParseArgs([output], a2) == Some(a2.(output := Some(output)));
  }

  /** How the ffmpeg run inside `watermark_video` ended. */
  datatype EncoderRun =
    | SetupFailed   // a temporary file could not be created or the input not written to it
    | SpawnFailed   // `Command::output` could not start the process
    | Exited(success: bool, outputExists: bool, readOk: bool, output: seq<byte>)

  datatype VideoError = IoFailed | EncoderFailed | OutputMissing | OutputEmpty

  /** `watermark_video`'s result, judged in the order the function checks. */
  function WatermarkVideo(run: EncoderRun): (r: Result<seq<byte>, VideoError>)
    ensures r.Ok? <==> run.Exited? && run.success && run.outputExists && run.readOk && |run.output| > 0
    ensures r.Ok? ==> r.value == run.output
    ensures run.Exited? && !run.success ==> r == Err(EncoderFailed)
    ensures run.Exited? && run.success && !run.outputExists ==> r == Err(OutputMissing)
    ensures run.Exited? && run.success && run.outputExists && run.readOk && run.output == [] ==> r == Err(OutputEmpty)
  {
    match run
    case SetupFailed => Err(IoFailed)
    case SpawnFailed => Err(IoFailed)
    case Exited(success, outputExists, readOk, output) =>
      if !success then Err(EncoderFailed)
      else if !outputExists then Err(OutputMissing)
      else if !readOk then Err(IoFailed)
      else if |output| == 0 then Err(OutputEmpty)
      else Ok(output)
  }

  /** The five-minute `tokio::time::timeout` around the call: it either fires or lets the run finish. */
  datatype VideoAttempt = TimedOut | Finished(run: EncoderRun)
}
