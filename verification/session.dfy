/**
 * `play(filename, transcode)` up to the moment the single-request server is
 * started: the file check, the transcoder and probe resolution, the MIME
 * type, and the responder. Killing an earlier instance, the PID file, the
 * device, the server thread and the URL are not modelled; each tool's
 * installation check and the probe's output are inputs.
 */
module Session {
  import opened Wrappers
  import opened Config
  import opened Transcoder
  import opened Mime
  import opened Commands
  import opened Server

  /** Why `play` stops before serving. */
  datatype PlayError =
    | MediaNotFound(filename: string)     // exit: not a regular file
    | SettingsUnreadable(cause: LoadError) // `load_config` raised in `get_transcoder_cmds`
    | ProbeUnreadable(probeError: MimeError) // `get_mimetype` raised on a `format_name` line

  /**
   * What `play` has set up: the responder, the MIME type it tells the
   * device, the probe command line it ran (if any), and the default
   * dictionary as the settings load left it.
   */
  datatype Setup = Setup(handler: Handler, mimetype: string, probeInvocation: Option<string>, current: Config)

  /** The probe command line `get_mimetype` runs, if a probe was resolved. */
  function ProbeInvocation(probeCmd: Option<string>, filename: string): (r: Option<string>)
    ensures r.Some? <==> probeCmd.Some?
    ensures probeCmd.Some? ==> r.value == probeCmd.value + " -show_streams -show_format \"" + filename + "\""
  {
    match probeCmd
    case None => None
    case Some(p) => Some(ProbeCommandLine(p, filename).value)
  }

  /**
   * `play(filename, transcode)` for an absolute `filename`; `isFile` is
   * `os.path.isfile(filename)`, `probeOutput` the lines the probe prints.
   */
  function Play(filename: string, isFile: bool, transcode: bool, file: Option<string>,
                ffmpegInstalled: bool, avconvInstalled: bool, probeOutput: seq<string>)
    : (r: Result<Setup, PlayError>)
    ensures !isFile ==> r == Failure(MediaNotFound(filename))
    ensures isFile && Load(file).Failure? ==> r == Failure(SettingsUnreadable(Load(file).error))
    ensures r.Success? ==> r.value.handler.contentType == r.value.mimetype && r.value.mimetype in MimeTypes
    ensures r.Success? ==> r.value.current == Load(file).value
    ensures r.Success? && !transcode ==> r.value.handler.responder == Direct
    ensures r.Success? && r.value.handler.responder.Transcoding? ==>
      ResolveTool(Load(file).value.transcoder, ffmpegInstalled, avconvInstalled) == Some(r.value.handler.responder.tool)
    ensures r.Success? ==>
      (r.value.probeInvocation.None? <==> ResolveTool(Load(file).value.transcoder, ffmpegInstalled, avconvInstalled).None?)
    ensures r.Success? && r.value.probeInvocation.None? ==>
      r.value.mimetype == DefaultMime && r.value.handler.responder == Direct
    ensures isFile && Load(file).Success? ==>
      var probe := TranscoderCmds(Load(file).value.transcoder, ffmpegInstalled, avconvInstalled).1;
      (r.Success? <==> GetMimetype(probe, probeOutput).Success?)
      && (r.Failure? ==> r.error == ProbeUnreadable(GetMimetype(probe, probeOutput).error))
      && (r.Success? ==> r.value.mimetype == GetMimetype(probe, probeOutput).value)
    ensures r.Success? && transcode ==>
      forall t :: ResolveTool(Load(file).value.transcoder, ffmpegInstalled, avconvInstalled) == Some(t) ==>
        r.value.handler.responder == Transcoding(t)
    ensures r.Success? ==>
      forall t :: ResolveTool(Load(file).value.transcoder, ffmpegInstalled, avconvInstalled) == Some(t) ==>
        r.value.probeInvocation == Some(t.ProbeCommand() + " -show_streams -show_format \"" + filename + "\"")
  {
    if !isFile then Failure(MediaNotFound(filename))
    else
      match Load(file)
      case Failure(e) => Failure(SettingsUnreadable(e))
      case Success(cfg) =>
        var cmds := TranscoderCmds(cfg.transcoder, ffmpegInstalled, avconvInstalled);
        match GetMimetype(cmds.1, probeOutput)
        case Failure(e) => Failure(ProbeUnreadable(e))
        case Success(mime) =>
          Success(Setup(SelectHandler(mime, transcode, cmds.0), mime, ProbeInvocation(cmds.1, filename), cfg))
  }

  /**
   * With the settings readable and neither tool installed, a transcode
   * request plays the file untranscoded as `video/mp4`, without probing.
   */
  lemma TranscodeWithoutToolPlaysDirect(filename: string, file: Option<string>, probeOutput: seq<string>)
    requires Load(file).Success?
    ensures Play(filename, true, true, file, false, false, probeOutput)
      == Success(Setup(Handler(DefaultMime, Direct), DefaultMime, None, Load(file).value))
  {
  }

  /**
   * With a tool resolved and its probe output readable, a transcode request
   * is served by that tool's template, and the file is probed with the
   * same tool's probe.
   */
  lemma TranscodeUsesResolvedTool(filename: string, file: Option<string>, ffmpegInstalled: bool,
                                  avconvInstalled: bool, probeOutput: seq<string>, t: Tool)
    requires Load(file).Success?
    requires ResolveTool(Load(file).value.transcoder, ffmpegInstalled, avconvInstalled) == Some(t)
    requires GetMimetype(Some(t.ProbeCommand()), probeOutput).Success?
    ensures var r := Play(filename, true, true, file, ffmpegInstalled, avconvInstalled, probeOutput);
      r.Success? && r.value.handler.responder == Transcoding(t)
      && r.value.probeInvocation == Some(t.ProbeCommand() + " -show_streams -show_format \"" + filename + "\"")
  {
    ToolNameRoundTrip(t);
  }

  /**
   * The one response the server gives announces the type the device was
   * told, and a transcoding response uses the settings `play` read when the
   * file has not changed since.
   */
  lemma ServedAsAnnounced(filename: string, transcode: bool, file: Option<string>,
                          ffmpegInstalled: bool, avconvInstalled: bool, probeOutput: seq<string>)
    requires Play(filename, true, transcode, file, ffmpegInstalled, avconvInstalled, probeOutput).Success?
    ensures var s := Play(filename, true, transcode, file, ffmpegInstalled, avconvInstalled, probeOutput).value;
      var resp := Respond(s.handler, filename, s.current, file);
      resp.status == 200 && resp.contentType == s.mimetype
      && (s.handler.responder.Transcoding? ==>
            resp.body == CommandOutput(TranscodeCommand(s.handler.responder.tool, filename, s.current).value))
  {
    var s := Play(filename, true, transcode, file, ffmpegInstalled, avconvInstalled, probeOutput).value;
    LoadTwiceIdempotent(Defaults, file);
  }
}
