/**
 * Choosing the transcoder and its matching probe (`get_transcoder_cmds`).
 * Whether each tool is installed (`is_transcoder_installed`, which runs the
 * tool) is an input; the preferred name is the `transcoder` setting, which
 * may hold any text the configuration file contains.
 */
module Transcoder {
  import opened Wrappers

  /** The two supported transcoding tools. */
  datatype Tool = Ffmpeg | Avconv {

    /** The command that transcodes. */
    function Command(): string {
      match this
      case Ffmpeg => "ffmpeg"
      case Avconv => "avconv"
    }

    /** The probe command shipped with the same tool. */
    function ProbeCommand(): string {
      match this
      case Ffmpeg => "ffprobe"
      case Avconv => "avprobe"
    }

    /** The other tool, tried when this one is missing. */
    function Other(): Tool {
      match this
      case Ffmpeg => Avconv
      case Avconv => Ffmpeg
    }
  }

  /** The tool a transcoder name denotes, if any. */
  function ToolNamed(name: string): (r: Option<Tool>)
    ensures r.Some? ==> r.value.Command() == name
    ensures r.None? ==> forall t: Tool :: t.Command() != name
  {
    if name == "ffmpeg" then Some(Ffmpeg)
    else if name == "avconv" then Some(Avconv)
    else None
  }

  /** Whether `tool` is installed, given the two installation checks. */
  function Installed(tool: Tool, ffmpegInstalled: bool, avconvInstalled: bool): bool {
    match tool
    case Ffmpeg => ffmpegInstalled
    case Avconv => avconvInstalled
  }

  /**
   * The transcoder to use: the preferred tool if installed, else the other
   * tool if installed, else none; an unrecognised preference gives none.
   */
  function ResolveTool(preferred: string, ffmpegInstalled: bool, avconvInstalled: bool): (r: Option<Tool>)
    ensures r.Some? ==> Installed(r.value, ffmpegInstalled, avconvInstalled)
    ensures ToolNamed(preferred).None? ==> r == None
    ensures ToolNamed(preferred).Some? && Installed(ToolNamed(preferred).value, ffmpegInstalled, avconvInstalled)
      ==> r == ToolNamed(preferred)
    ensures ToolNamed(preferred).Some? && !Installed(ToolNamed(preferred).value, ffmpegInstalled, avconvInstalled)
      ==> r == (if Installed(ToolNamed(preferred).value.Other(), ffmpegInstalled, avconvInstalled)
                then Some(ToolNamed(preferred).value.Other()) else None)
  {
    if preferred == "ffmpeg" then
      if ffmpegInstalled then Some(Ffmpeg)
      else if avconvInstalled then Some(Avconv)
      else None
    else if preferred == "avconv" then
      if avconvInstalled then Some(Avconv)
      else if ffmpegInstalled then Some(Ffmpeg)
      else None
    else None
  }

  /** `get_transcoder_cmds()`: the pair (transcoder command, probe command), each possibly `None`. */
  function TranscoderCmds(preferred: string, ffmpegInstalled: bool, avconvInstalled: bool)
    : (r: (Option<string>, Option<string>))
    ensures r.0.Some? <==> r.1.Some?
    ensures r.0 == Some("ffmpeg") <==> r.1 == Some("ffprobe")
    ensures r.0 == Some("avconv") <==> r.1 == Some("avprobe")
    ensures r.0.Some? ==> r.0 == Some("ffmpeg") || r.0 == Some("avconv")
    ensures r.0 == Some("ffmpeg") ==> ffmpegInstalled
    ensures r.0 == Some("avconv") ==> avconvInstalled
    ensures forall t :: ResolveTool(preferred, ffmpegInstalled, avconvInstalled) == Some(t) ==>
              r == (Some(t.Command()), Some(t.ProbeCommand()))
    ensures ResolveTool(preferred, ffmpegInstalled, avconvInstalled).None? ==> r == (None, None)
  {
    match ResolveTool(preferred, ffmpegInstalled, avconvInstalled)
    case None => (None, None)
    case Some(t) => (Some(t.Command()), Some(t.ProbeCommand()))
  }

  /** A name names a tool exactly when it is that tool's command. */
  lemma ToolNameRoundTrip(t: Tool)
    ensures ToolNamed(t.Command()) == Some(t)
  {
  }

  /** Nothing is chosen exactly when the preference is unknown or neither tool is installed. */
  lemma NoTranscoderIff(preferred: string, ffmpegInstalled: bool, avconvInstalled: bool)
    ensures ResolveTool(preferred, ffmpegInstalled, avconvInstalled).None?
      <==> ToolNamed(preferred).None? || (!ffmpegInstalled && !avconvInstalled)
  {
  }
}
