# stream2chromecast core, modelled in Dafny

stream2chromecast is a command-line script that plays a local media file on a
Chromecast. It serves the file from a one-request HTTP server, optionally
transcoding it on the fly with `ffmpeg` or `avconv`. This project models the
script's decision logic and proves properties about it:

- **Transcoder choice** (`Transcoder`). The preferred tool is used if installed,
  otherwise the other tool, otherwise none. The probe command follows the
  transcoder.
- **Container probing** (`Mime`). The lines printed by `ffprobe`/`avprobe` are
  turned into the MIME type announced to the device. The Python loop is checked
  against a reference definition stated over the whole output.
- **The settings file** (`Config`). `load_config` starts from the default
  dictionary and parses `name:value` lines. `save_config` writes them back. A
  clean configuration survives a save followed by a load.
- **The settings commands** (`Settings`). `save_transcoder` and
  `save_transcode_quality` validate their arguments, including a model of
  Python 2's `int()` on text, then load, update and save.
- **`%` formatting** (`Percent`) and **the command lines it builds**
  (`Commands`). These are the two transcoding templates and the probe
  invocation.
- **The responder** (`Server`). This covers which handler class `play` picks,
  the content type it announces, and where the one response's body comes from.
- **`play`** (`Session`), up to the moment the server is started.
- **Argument handling** (`Cli`). `validate_args` and `run` take `sys.argv` to
  the action taken.

`text.dfy` models the Python string operations used: `split`, `strip`,
`lower`, `startswith` and substring tests. `wrappers.dfy` holds `Option` and
`Result`. The outside world becomes parameters:

- whether the file exists;
- whether each tool is installed;
- the probe's output lines;
- the settings file's text (`None` when it cannot be opened);
- the order in which the dictionary's keys are iterated.

The script exits with a message, or raises, in several places. Most of these
become a `Failure` value or a dedicated outcome; the exceptions are listed
under "## Left out".

## Model

| member | source | states |
|---|---|---|
| Transcoder.ToolNamed | stream2chromecast.py:120-136 | only the two exact names `ffmpeg` and `avconv` denote a tool, and the name is that tool's command |
| Transcoder.ResolveTool | stream2chromecast.py:109-138 | the chosen tool is installed; the preferred tool wins when installed; otherwise the other tool if installed; an unknown preference chooses nothing |
| Transcoder.TranscoderCmds | stream2chromecast.py:109-138 | the pair is the command and probe of the tool the preference rule resolves (the preferred tool if installed, else the other one), and both are unset when none is resolved; ffmpeg goes with ffprobe and avconv with avprobe; a named command is installed |
| Transcoder.NoTranscoderIff | stream2chromecast.py:120-138 | no transcoder is chosen exactly when the preference is unknown or neither tool is installed |
| Mime.GetMimetype | stream2chromecast.py:257-303 | without a probe command the answer is `video/mp4`; any answer is one of the eight types the function can produce |
| Mime.ScanMeaning | stream2chromecast.py:272-279 | the line loop fails exactly when the value of some `format_name=` line holds another `=`; otherwise its flags are "some audio line", "some video line", and the tokens of the last format line |
| Mime.ScanLine | stream2chromecast.py:272-279 | one line of the probe loop: an audio or video codec line sets its flag, a format line replaces the token list, and a format value holding `=` raises; Mime.ScanMeaning states what the whole loop computes |
| Mime.Scan | stream2chromecast.py:272-279 | the probe loop over all lines, stopping at the first raise; Mime.ScanMeaning equates its result with the any-audio, any-video and last-format reference definitions |
| Mime.ContainerIsFirstMatch | stream2chromecast.py:285-301 | the if-chain equals the first-match rule over mp4, webm, ogg, mp3, wav; mp3 and wav ignore the video flag; anything else falls back to mp4 |
| Mime.Container | stream2chromecast.py:285-301 | the answer is always one of the eight types the if-chain can produce; Mime.ContainerIsFirstMatch equates it with the first-match rule |
| Mime.MimeMeaning | stream2chromecast.py:257-303 | with a probe, the result fails iff some format line is malformed; otherwise it is the reference type computed from the whole output |
| Mime.MimeDefault | stream2chromecast.py:257-283 | without a probe, or without any format line, the type is `video/mp4` whatever the codec lines say |
| Mime.MimeLastFormatWins | stream2chromecast.py:277-279 | a well-formed format line appended last decides the container, whatever earlier format lines said |
| Mime.MimeAudioIgnored | stream2chromecast.py:272-288 | inserting an audio-stream line anywhere changes neither success nor the type |
| Mime.MimeVideoPrefix | stream2chromecast.py:285-301 | unless the container is mp3 or wav, the type starts with `video/` exactly when a video stream was reported |
| Mime.StreamThenFormat | stream2chromecast.py:277-291 | an audio or video stream line followed by a well-formed format line gives the reference rule's type for that stream kind and the format's tokens |
| Mime.Mp4Listed | stream2chromecast.py:285-291 | any container list naming `mp4` keeps the stream's prefix with the `mp4` subtype |
| Mime.MimeExampleAviMp4 | stream2chromecast.py:277-291 | a video stream in an `avi,mp4` container is `video/mp4` |
| Mime.MimeExampleMp3 | stream2chromecast.py:285-297 | an audio-only mp3 is `audio/mpeg` |
| Config.KeyNamed | stream2chromecast.py:68 | only the three default keys name a setting, and naming round-trips |
| Config.LoadLine | stream2chromecast.py:200-203 | one line of the load loop; Config.LoadLineFailsIff, Config.LoadLineSets and Config.LoadLineIgnores state its three outcomes |
| Config.LoadLines | stream2chromecast.py:196-205 | the load loop over the lines in file order, stopping at the first raise; Config.LoadLinesMeaning states its result for the whole file |
| Config.LoadFrom | stream2chromecast.py:190-207 | a file that cannot be opened leaves the starting dictionary as it is, otherwise its lines are loaded over it; Config.LoadTwiceIdempotent and Config.SaveLoadRoundTrip state its properties |
| Config.LoadLinesSkipPlain | stream2chromecast.py:196-205 | a colon-free line anywhere in the file changes nothing about the load |
| Config.RecordForIff | stream2chromecast.py:200-203 | a colon-free name and value form a record for a key exactly when the name is the key's name, and the value is what is stored |
| Config.LoadLineFailsIff | stream2chromecast.py:200-201 | one line makes `load_config` raise exactly when it holds two or more colons |
| Config.LoadLineSets | stream2chromecast.py:200-203 | a record for a known key sets that key and nothing else |
| Config.LoadLineIgnores | stream2chromecast.py:200-203 | a line with at most one colon that is no record for a known key leaves the settings unchanged |
| Config.Load | stream2chromecast.py:190-207 | a settings file that cannot be opened gives the defaults |
| Config.LoadLinesMeaning | stream2chromecast.py:196-205 | loading fails exactly when some line has two or more colons; otherwise each key holds the value of its last record, or its earlier value when it has none |
| Config.LoadedIsClean | stream2chromecast.py:196-205 | every value a successful load produces is free of colons and line breaks |
| Config.LoadTwiceIdempotent | stream2chromecast.py:190-207 | loading an unchanged file again over the dictionary the first load updated gives the same settings |
| Config.SaveLoadRoundTrip | stream2chromecast.py:190-219 | settings free of colons and line breaks, saved in any key order and loaded again, come back unchanged |
| Config.SaveText | stream2chromecast.py:210-219 | the saved text is empty exactly when no key is saved, and otherwise ends with a line break; Config.SaveLoadRoundTrip reads it back |
| Config.BrokenValueCut | stream2chromecast.py:196-219 | a saved value made of text, a line break and colon- and line-break-free text reads back, in every key order, as if only the text before the break had been saved |
| Config.MissingFileGivesDefaults | stream2chromecast.py:68 | with no settings file the settings are transcoder `ffmpeg`, preset `ultrafast`, bitrate `2000k` |
| Settings.IntTextAccepted | stream2chromecast.py:176-179 | every text of the form spaces, optional sign, spaces, digits, spaces passes `int()` |
| Settings.IntTextComplete | stream2chromecast.py:176-179 | every text `int()` accepts has that form |
| Settings.IntTextChars | stream2chromecast.py:176-179 | a text `int()` accepts holds only whitespace, digits and signs |
| Settings.PyIntAccepts | stream2chromecast.py:176-179 | Python 2 `int()` on text; Settings.IntTextAccepted and Settings.IntTextComplete show that it accepts exactly whitespace, an optional sign, whitespace, digits and whitespace |
| Settings.WithoutUnit | stream2chromecast.py:172-174 | the bitrate itself or a prefix one character shorter, shorter exactly when the last character is `k` or `m` |
| Settings.BitrateAccepted | stream2chromecast.py:172-179 | the script's bitrate check; Settings.AcceptedBitrateHasNoColon, Settings.NewlineBitrateAccepted and Settings.StrictBitrateAccepted state what it lets through |
| Settings.AcceptedBitrateHasNoColon | stream2chromecast.py:172-179 | a bitrate that passes the check holds no colon, so it cannot break a record by itself |
| Settings.SaveTranscoder | stream2chromecast.py:152-163 | a name other than ffmpeg/avconv exits; otherwise it fails only when the settings cannot be read; the text written loads back as the old settings with the new transcoder |
| Settings.SaveTranscodeQuality | stream2chromecast.py:167-187 | an unknown preset exits, then a bitrate failing `int()` after dropping one trailing `k` or `m` exits; otherwise it fails only when the settings cannot be read; a line-break-free bitrate loads back with the new preset and bitrate |
| Settings.NewlineBitrateAccepted | stream2chromecast.py:172-179 | a line break followed by digits passes the bitrate check |
| Settings.NewlineBitrateLost | stream2chromecast.py:172-187 | over any readable settings and in every key order, any preset with a bitrate made of a line break and digits (such as `"\n5"`) is saved, yet the settings load back with that preset and an empty bitrate |
| Settings.TranscoderRoundTrip | stream2chromecast.py:152-163 | readable settings with a colon- and line-break-free transcoder name stored, saved in any key order, load back as exactly those settings |
| Settings.QualityRoundTrip | stream2chromecast.py:167-187 | readable settings with a colon- and line-break-free preset and bitrate stored, saved in any key order, load back as exactly those settings |
| Settings.SaveTranscodeQualityStrict | stream2chromecast.py:167-187 | with the bitrate restricted to digits and an optional unit, every successful save loads back with exactly the new preset and bitrate |
| Settings.StrictBitrateAccepted | stream2chromecast.py:172-179 | the strict bitrate check only narrows the script's check |
| Settings.ResetQualityAccepted | stream2chromecast.py:491-494 | resetting the quality succeeds exactly when the settings can be read, and stores the default preset and bitrate |
| Percent.FormatPlain | stream2chromecast.py:99 | a `%`-free prefix is copied unchanged and does not affect success |
| Percent.FormatDirective | stream2chromecast.py:99 | `%s` consumes the next argument and inserts it verbatim |
| Percent.FormatTemplate | stream2chromecast.py:99 | a template of `%`-free pieces formats exactly when there is one argument per `%s`, and then yields pieces and arguments interleaved |
| Percent.Format | stream2chromecast.py:99 | `%` formatting with `%s` and `%%`; Percent.FormatPlain, Percent.FormatDirective and Percent.FormatTemplate state its behaviour |
| Commands.TemplateShape | stream2chromecast.py:71-72 | each transcoding template has exactly three `%s` slots and no other `%` |
| Commands.TranscodeCommand | stream2chromecast.py:71-99 | formatting a template never raises; path, preset and bitrate land in their slots verbatim |
| Commands.ProbeCommandLine | stream2chromecast.py:269 | the probe invocation is the probe command, the stream/format options, and the quoted file name |
| Commands.TemplatesDiffer | stream2chromecast.py:71-72 | the two templates differ, so the template identifies the tool |
| Commands.CommandStartsWithTool | stream2chromecast.py:71-99 | every transcoding command line begins with its own tool's name |
| Server.SelectHandler | stream2chromecast.py:335-344 | the announced type is the probed type; transcoding is chosen exactly when asked for and a known transcoder was resolved, and then with that transcoder's template |
| Server.Respond | stream2chromecast.py:75-104 | status 200 with the announced type; the direct handler sends the file; the transcoding one aborts exactly when the request-time settings load fails, else runs the tool's command line: the literal pieces of its template with the path, the preset and the bitrate in their slots, starting with the tool's name |
| Server.NoTranscoderServesDirect | stream2chromecast.py:338-344 | with no transcoder, a transcode request gets the direct handler |
| Server.TranscodedCommandText | stream2chromecast.py:93-101 | a transcoding response runs the chosen tool's command on the path with the settings read at request time |
| Server.RequestSeesSessionSettings | stream2chromecast.py:97-99 | when the settings file is unchanged, the request-time load sees the same settings as the defaults would give |
| Session.ProbeInvocation | stream2chromecast.py:262-270 | a probe command line is run exactly when a probe was resolved, and it names the file |
| Session.Play | stream2chromecast.py:306-344 | a missing file exits; unreadable settings fail; with readable settings `play` succeeds exactly when `get_mimetype` with the resolved probe succeeds on the probe's output, fails with that error otherwise, and announces exactly the type it returns; a plain play is direct; whenever a tool is resolved, that tool's probe is run on the file being played (`<probe> -show_streams -show_format "<file>"`), and a transcode request is served by that tool's template; without a probe the type is `video/mp4` served directly |
| Session.TranscodeWithoutToolPlaysDirect | stream2chromecast.py:320-344 | with neither tool installed, a transcode request plays the file untranscoded as `video/mp4` without probing |
| Session.TranscodeUsesResolvedTool | stream2chromecast.py:320-344 | with a tool resolved, transcoding and probing both use that tool |
| Session.ServedAsAnnounced | stream2chromecast.py:335-357 | the response announces the type the device was told; with an unchanged settings file a transcoding response uses the settings `play` read |
| Cli.Dispatch | stream2chromecast.py:428-497 | usage is shown exactly when validation fails; `-set_transcoder` stores the lower-cased name; quality comes from the lower-cased arguments, or from the defaults on reset |
| Cli.UsageIff | stream2chromecast.py:428-442 | usage is shown exactly when no word follows the script name (`len(sys.argv) < 2`), when a part of `-set_transcoder` lacks its argument, or when `-set_transcode_quality` lacks two |
| Cli.ArgsValid | stream2chromecast.py:428-442 | `validate_args`: the arguments are rejected when no word follows the script name (`len(sys.argv) < 2`), when `-set_transcoder` (or any part of it) lacks its argument, or when `-set_transcode_quality` lacks two; Cli.Dispatch shows usage exactly then, and Cli.UsageIff spells out the cases |
| Cli.NoArgumentOptionsNotTranscode | stream2chromecast.py:435-478 | none of the argument-free options is part of `-transcode` |
| Cli.TranscodeAbbreviations | stream2chromecast.py:478-480 | any part of `-transcode` other than an earlier option word, given a file, plays that file with transcoding |
| Cli.PlainFilePlays | stream2chromecast.py:496-497 | a word not starting with `-` that holds a character `-set_transcoder` lacks plays untranscoded |
| Cli.ResetUsesDefaults | stream2chromecast.py:491-494 | `-reset_transcode_quality` stores `ultrafast` and `2000k` |
| Cli.SetTranscoderLowers | stream2chromecast.py:482-484 | `-set_transcoder FFmpeg` stores `ffmpeg` |
| Cli.ShortTranscodeOption | stream2chromecast.py:437-480 | `-t FILE` plays FILE with transcoding; `-t` alone passes validation and then lacks its file |
| Cli.SetVolumeWithoutLevel | stream2chromecast.py:465-467 | `-setvol` without a level passes validation and then lacks its argument |
| Cli.FileNamedCodeMisread | stream2chromecast.py:437-478 | a file named `code` alone is a usage error, and `code X` plays X with transcoding |
| Cli.DispatchIntended | stream2chromecast.py:428-497 | with equality tests, usage is shown exactly when a setting option lacks its arguments, and a plain play plays the word given |
| Cli.IntendedPlainFilePlays | stream2chromecast.py:496-497 | with equality tests, every word that is no option word plays that file |
| Cli.IntendedAgrees | stream2chromecast.py:437-478 | the intended dispatch agrees with the script on every word holding a character `-set_transcoder` lacks |
| Cli.FileNamedCodeIntended | stream2chromecast.py:496-497 | with equality tests, a file named `code` plays |

## Left out

- The HTTP server, its thread, sockets, the URL and `quote_plus`/`unquote_plus` are not modelled. The request path is an input (`filepath`). The response body is described by its source: the file, or a command's output.
- Running processes is not modelled: `subprocess`, the `-version` installation checks, the probe and the transcoder. Installation is given as two booleans, and the probe's output as a list of lines.
- `is_transcoder_installed` (stream2chromecast.py:140-146) catches only `OSError`. A tool whose `-version` run exits non-zero makes `check_output` raise `CalledProcessError`, which escapes `get_transcoder_cmds` and ends `play`. `Session.Play` has no outcome for that error path: each tool is taken to be either installed or absent.
- The Chromecast itself is not modelled (`get_chromecast`, `play_media`, pause, stop, status, the volume calls) and neither are the sleeps. `Cli.Dispatch` stops at the command it would run.
- The PID files are not modelled. `kill_old_pid` catches every error, so it never stops `play`. `save_pid` has no `try`: if `/tmp/stream2chromecast.pid` cannot be written, its `IOError` ends `play` before `get_transcoder_cmds` runs. `Session.Play` has no outcome for that error path.
- File I/O is not modelled:
  - `~` expansion;
  - `os.path.isfile`, which is an input;
  - `abspath`, since the file name is taken as already absolute;
  - the write failure of `save_config`, which only prints a message. The saved text is the result.
- The iteration order of a Python 2 dict's keys is implementation-defined. It is an input (`order`), and every save property holds for every order.
- `float()` parsing of the `-setvol` level is not modelled. The level text is kept as given, and a bad level's `ValueError` is not modelled.
- The usage text and the printed messages are not modelled.
- Mime.MimeAudioIgnored: compares only success and the resulting type, not the error values of failing calls; those are the same, but it is not stated.
- Settings.SaveTranscodeQuality: the round trip is stated only for bitrates without a line break, because the script's own check lets line breaks through (see Findings).
- Unlike the script's documented behaviour, a transcode request with no transcoder available does not fail. The code plays the file without transcoding (`Server.NoTranscoderServesDirect`), and the model follows the code.
- The content type is set on the base handler class before the transcoding class is chosen. Both handlers therefore announce the probed type, even when the transcoder produces MP4. The model follows the code.

## Findings

| source | as written | input that shows it | evidently intended | confidence | as-written member | corrected member |
|---|---|---|---|---|---|---|
| stream2chromecast.py:172-187 | the bitrate check is Python's `int()`, which skips surrounding whitespace, line breaks included; the value is then written into a line-based settings file | `-set_transcode_quality fast $'\n5'` passes the check, but the saved settings reload with an empty bitrate, whatever the key order and the earlier settings | accept only digits with an optional `k`/`m`, as the error message describes | medium, not executed | Settings.NewlineBitrateLost | Settings.SaveTranscodeQualityStrict |
| stream2chromecast.py:437-478 | `arg1 in ("-set_transcoder")` and `arg1 in ("-transcode")` lack the trailing comma, so they test for a substring, not a tuple member | a media file named `code`: alone it gives the usage text; `code X` transcodes X | compare the option words for equality, like the other options | high, not executed | Cli.FileNamedCodeMisread | Cli.DispatchIntended |
