/**
 * The single-request HTTP responder that `play` configures: which variant
 * serves the file (`RequestHandler` or `TranscodingRequestHandler`), the
 * content type it announces, and what the one response carries.
 *
 * Reading the file and running the transcoder are I/O; the response body is
 * described by its source (the file, or the output of a command line).
 */
module Server {
  import opened Wrappers
  import opened Config
  import opened Transcoder
  import opened Commands
  import opened Text

  /** The two responder variants; a transcoding one remembers its template's tool. */
  datatype Responder = Direct | Transcoding(tool: Tool)

  /** The responder class as `play` leaves it: the content type and the variant. */
  datatype Handler = Handler(contentType: string, responder: Responder)

  /**
   * The responder `play` picks: the direct one unless transcoding is asked
   * for and a transcoder command was resolved, in which case the template of
   * that command. The content type is set on the base class, so both
   * variants announce the probed type.
   */
  function SelectHandler(mime: string, transcode: bool, transcoderCmd: Option<string>): (h: Handler)
    ensures h.contentType == mime
    ensures h.responder.Transcoding? <==>
      transcode && transcoderCmd.Some? && ToolNamed(transcoderCmd.value).Some?
    ensures h.responder.Transcoding? ==> transcoderCmd == Some(h.responder.tool.Command())
  {
    var responder :=
      if !transcode then Direct
      else if transcoderCmd == Some("ffmpeg") then Transcoding(Ffmpeg)
      else if transcoderCmd == Some("avconv") then Transcoding(Avconv)
      else Direct;
    Handler(mime, responder)
  }

  /** Where the response body comes from. */
  datatype Body =
    | FileContents(path: string)        // the file's bytes, read whole
    | CommandOutput(command: string)    // the standard output of a shell command, line by line
    | Aborted(cause: LoadError)         // the settings could not be read after the headers went out

  /** The one response: a status line, a content type, and a body. */
  datatype Response = Response(status: nat, contentType: string, body: Body)

  /**
   * `do_GET` for a request whose unquoted path is `filepath`. The status and
   * header are sent before the body is produced, so a settings file that
   * fails to load aborts the response after a 200. The transcoding variant
   * reads the settings again at request time, starting from `current`: the
   * script's default dictionary as earlier loads have left it.
   */
  function Respond(h: Handler, filepath: string, current: Config, file: Option<string>): (r: Response)
    ensures r.status == 200 && r.contentType == h.contentType
    ensures h.responder.Direct? ==> r.body == FileContents(filepath)
    ensures h.responder.Transcoding? ==>
      (r.body.Aborted? <==> LoadFrom(current, file).Failure?)
    ensures h.responder.Transcoding? && LoadFrom(current, file).Success? ==>
      var t, c := h.responder.tool, LoadFrom(current, file).value;
      r.body == CommandOutput(PiecesOf(t)[0] + filepath + PiecesOf(t)[1] + c.preset
                              + PiecesOf(t)[2] + c.bitrate + PiecesOf(t)[3])
      && StartsWith(r.body.command, t.Command() + " ")
  {
    match h.responder
    case Direct => Response(200, h.contentType, FileContents(filepath))
    case Transcoding(tool) =>
      match LoadFrom(current, file)
      case Failure(e) => Response(200, h.contentType, Aborted(e))
      case Success(c) =>
        CommandStartsWithTool(tool, filepath, c);
        Response(200, h.contentType, CommandOutput(TranscodeCommand(tool, filepath, c).value))
  }

  /**
   * With no transcoder resolved, a transcode request is served by the
   * direct responder rather than refused.
   */
  lemma NoTranscoderServesDirect(mime: string, transcode: bool)
    ensures SelectHandler(mime, transcode, None).responder == Direct
  {
  }

  /** A transcoding response runs the chosen tool with the path and the settings read at request time. */
  lemma TranscodedCommandText(t: Tool, filepath: string, current: Config, file: Option<string>, mime: string)
    requires LoadFrom(current, file).Success?
    ensures var c := LoadFrom(current, file).value;
      var r := Respond(SelectHandler(mime, true, Some(t.Command())), filepath, current, file);
      r.body == CommandOutput(PiecesOf(t)[0] + filepath + PiecesOf(t)[1] + c.preset
                              + PiecesOf(t)[2] + c.bitrate + PiecesOf(t)[3])
      && StartsWith(r.body.command, t.Command() + " ")
  {
    CommandStartsWithTool(t, filepath, LoadFrom(current, file).value);
  }

  /**
   * When the settings file is unchanged since `play` read it, the request
   * reads the same settings, even though it starts from the dictionary that
   * first load updated in place.
   */
  lemma RequestSeesSessionSettings(h: Handler, filepath: string, file: Option<string>)
    requires h.responder.Transcoding?
    requires Load(file).Success?
    ensures Respond(h, filepath, Load(file).value, file) == Respond(h, filepath, Defaults, file)
  {
    LoadTwiceIdempotent(Defaults, file);
  }
}
