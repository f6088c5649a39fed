/**
 * MIME classification of a media file from the line-oriented output of a
 * probe command (`get_mimetype`). The probe process itself is not modelled:
 * the lines it prints are an input, and "no probe command" is `None`.
 */
module Mime {
  import opened Wrappers
  import opened Text

  /** The answer when probing is unavailable or inconclusive. */
  const DefaultMime := "video/mp4"

  const CodecAudio := "codec_type=audio"
  const CodecVideo := "codec_type=video"
  const FormatKey := "format_name="

  /** Every MIME type the classification can produce. */
  const MimeTypes: set<string> := {
    "video/mp4", "video/webm", "video/ogg",
    "audio/mp4", "audio/webm", "audio/ogg",
    "audio/mpeg", "audio/wav"
  }

  /** A `format_name=` line whose value holds another `=`: the two-name unpack fails. */
  datatype MimeError = FormatUnpack(line: string)

  /** The three flags the probe loop keeps; `formatName` is the token list, once seen. */
  datatype ProbeState = ProbeState(hasAudio: bool, hasVideo: bool, formatName: Option<seq<string>>)

  const Initial := ProbeState(false, false, None)

  predicate IsAudioLine(line: string) {
    StartsWith(line, CodecAudio)
  }

  predicate IsVideoLine(line: string) {
    StartsWith(line, CodecVideo)
  }

  predicate IsFormatLine(line: string) {
    StartsWith(line, FormatKey)
  }

  /** The text after `format_name=` on a format line. */
  function FormatValue(line: string): string
    requires IsFormatLine(line)
  {
    line[|FormatKey|..]
  }

  /** A format line the loop cannot unpack. */
  predicate IsBadFormatLine(line: string) {
    IsFormatLine(line) && '=' in FormatValue(line)
  }

  /** The container tokens a well-formed format line reports: stripped, lower-cased, split on commas. */
  function FormatTokens(line: string): seq<string>
    requires IsFormatLine(line)
  {
    Split(Lower(Strip(FormatValue(line))), ',')
  }

  /** One iteration of the probe-output loop. */
  function ScanLine(st: ProbeState, line: string): Result<ProbeState, MimeError> {
    if StartsWith(line, CodecAudio) then Success(st.(hasAudio := true))
    else if StartsWith(line, CodecVideo) then Success(st.(hasVideo := true))
    else if StartsWith(line, FormatKey) then
      var parts := Split(line, '=');
      if |parts| != 2 then Failure(FormatUnpack(line))
      else Success(st.(formatName := Some(Split(Lower(Strip(parts[1])), ','))))
    else Success(st)
  }

  /** The probe-output loop over all lines, first to last; the first failure aborts it. */
  function Scan(lines: seq<string>): Result<ProbeState, MimeError>
    decreases |lines|
  {
    if |lines| == 0 then Success(Initial)
    else
      var st :- Scan(lines[..|lines| - 1]);
      ScanLine(st, lines[|lines| - 1])
  }

  /** The fixed order in which container tokens are tried. */
  const ContainerOrder: seq<string> := ["mp4", "webm", "ogg", "mp3", "wav"]

  /** The if-chain choosing the subtype, in the order the script tests the tokens. */
  function Container(video: bool, tokens: seq<string>): (r: string)
    ensures r in MimeTypes
  {
    var prefix := if video then "video/" else "audio/";
    PrefixedTypes(video);
    if "mp4" in tokens then prefix + "mp4"
    else if "webm" in tokens then prefix + "webm"
    else if "ogg" in tokens then prefix + "ogg"
    else if "mp3" in tokens then "audio/mpeg"
    else if "wav" in tokens then "audio/wav"
    else prefix + "mp4"
  }

  /** Both stream prefixes combine with mp4, webm and ogg into known types. */
  lemma PrefixedTypes(video: bool)
    ensures var prefix := if video then "video/" else "audio/";
      prefix + "mp4" in MimeTypes && prefix + "webm" in MimeTypes && prefix + "ogg" in MimeTypes
  {
    if video {
      assert "video/" + "mp4" == "video/mp4";
      assert "video/" + "webm" == "video/webm";
      assert "video/" + "ogg" == "video/ogg";
    } else {
      assert "audio/" + "mp4" == "audio/mp4";
      assert "audio/" + "webm" == "audio/webm";
      assert "audio/" + "ogg" == "audio/ogg";
    }
  }

  /** Turns the loop's final flags into a MIME type. */
  function Classify(st: ProbeState): string {
    match st.formatName
    case None => DefaultMime
    case Some(tokens) => Container(st.hasVideo, tokens)
  }

  /** `get_mimetype(filename, probe)` where `lines` is what the probe prints for the file. */
  function GetMimetype(probeCmd: Option<string>, lines: seq<string>): (r: Result<string, MimeError>)
    ensures probeCmd.None? ==> r == Success(DefaultMime)
    ensures r.Success? ==> r.value in MimeTypes
  {
    if probeCmd.None? then Success(DefaultMime)
    else
      var st :- Scan(lines);
      Success(Classify(st))
  }

  // ---------------------------------------------------------------------
  // Reference definitions: what the loop computes, stated over the lines.
  // ---------------------------------------------------------------------

  predicate AnyAudio(lines: seq<string>) {
    exists i :: 0 <= i < |lines| && IsAudioLine(lines[i])
  }

  predicate AnyVideo(lines: seq<string>) {
    exists i :: 0 <= i < |lines| && IsVideoLine(lines[i])
  }

  predicate AnyBadFormat(lines: seq<string>) {
    exists i :: 0 <= i < |lines| && IsBadFormatLine(lines[i])
  }

  /** The position of the last format line, if there is one. */
  function LastFormatIndex(lines: seq<string>): (r: Option<nat>)
    ensures r.None? <==> forall i :: 0 <= i < |lines| ==> !IsFormatLine(lines[i])
    ensures r.Some? ==> r.value < |lines| && IsFormatLine(lines[r.value])
    ensures r.Some? ==> forall j :: r.value < j < |lines| ==> !IsFormatLine(lines[j])
    decreases |lines|
  {
    if |lines| == 0 then None
    else if IsFormatLine(lines[|lines| - 1]) then Some(|lines| - 1)
    else
      var p := lines[..|lines| - 1];
      assert forall i :: 0 <= i < |p| ==> p[i] == lines[i];
      LastFormatIndex(p)
  }

  /** The tokens of the last format line, if there is one. */
  function LastFormat(lines: seq<string>): Option<seq<string>> {
    match LastFormatIndex(lines)
    case None => None
    case Some(k) => Some(FormatTokens(lines[k]))
  }

  /** The least position in `ContainerOrder`, from `from` on, whose token is listed. */
  function FirstKnown(tokens: seq<string>, from: nat): (r: Option<nat>)
    requires from <= |ContainerOrder|
    ensures r.Some? ==> from <= r.value < |ContainerOrder| && ContainerOrder[r.value] in tokens
    ensures r.Some? ==> forall j :: from <= j < r.value ==> ContainerOrder[j] !in tokens
    ensures r.None? ==> forall j :: from <= j < |ContainerOrder| ==> ContainerOrder[j] !in tokens
    decreases |ContainerOrder| - from
  {
    if from == |ContainerOrder| then None
    else if ContainerOrder[from] in tokens then Some(from)
    else FirstKnown(tokens, from + 1)
  }

  /**
   * The subtype rule stated by position: the first known container wins;
   * mp3 and wav force an audio type, the rest keep the stream prefix.
   */
  function ReferenceMime(video: bool, tokens: seq<string>): string {
    var prefix := if video then "video/" else "audio/";
    match FirstKnown(tokens, 0)
    case None => prefix + "mp4"
    case Some(k) =>
      if ContainerOrder[k] == "mp3" then "audio/mpeg"
      else if ContainerOrder[k] == "wav" then "audio/wav"
      else prefix + ContainerOrder[k]
  }

  /** The answer the reference definitions give for a probe output without bad format lines. */
  function ExpectedMime(lines: seq<string>): string {
    match LastFormat(lines)
    case None => DefaultMime
    case Some(tokens) => ReferenceMime(AnyVideo(lines), tokens)
  }

  // ---------------------------------------------------------------------
  // Properties
  // ---------------------------------------------------------------------

  /** On a format line, the two-way `split("=")` succeeds exactly when the value has no `=`. */
  lemma FormatLineParts(line: string)
    requires IsFormatLine(line)
    ensures |Split(line, '=')| == 2 <==> '=' !in FormatValue(line)
    ensures '=' !in FormatValue(line) ==> Split(line, '=')[1] == FormatValue(line)
  {
    var name := "format_name";
    assert line == name + ['='] + FormatValue(line) by {
      assert line[..|FormatKey|] == FormatKey;
    }
    SplitPiece(name, FormatValue(line), '=');
    SplitCount(FormatValue(line), '=');
    CountZero(FormatValue(line), '=');
    if '=' !in FormatValue(line) {
      SplitWithout(FormatValue(line), '=');
    }
  }

  /** The three line kinds are mutually exclusive, so the order of the tests does not matter. */
  lemma LineKindsDisjoint(line: string)
    ensures !(IsAudioLine(line) && IsVideoLine(line))
    ensures !(IsAudioLine(line) && IsFormatLine(line))
    ensures !(IsVideoLine(line) && IsFormatLine(line))
  {
    if IsAudioLine(line) {
      assert line[11] == 'a';
    }
    if IsFormatLine(line) {
      assert line[0] == 'f';
    }
  }

  /**
   * The loop fails exactly when some format line holds a second `=`;
   * otherwise its flags are the reference definitions over the lines.
   */
  lemma {:induction false} ScanMeaning(lines: seq<string>)
    ensures Scan(lines).Failure? <==> AnyBadFormat(lines)
    ensures Scan(lines).Success? ==>
      Scan(lines).value == ProbeState(AnyAudio(lines), AnyVideo(lines), LastFormat(lines))
    decreases |lines|
  {
    if |lines| > 0 {
      var p := lines[..|lines| - 1];
      var line := lines[|lines| - 1];
      ScanMeaning(p);
      LineKindsDisjoint(line);
      assert forall i :: 0 <= i < |p| ==> lines[i] == p[i];
      assert AnyBadFormat(lines) <==> AnyBadFormat(p) || IsBadFormatLine(line);
      assert AnyAudio(lines) <==> AnyAudio(p) || IsAudioLine(line);
      assert AnyVideo(lines) <==> AnyVideo(p) || IsVideoLine(line);
      if IsFormatLine(line) {
        FormatLineParts(line);
        assert LastFormat(lines) == Some(FormatTokens(line));
      } else {
        assert LastFormat(lines) == LastFormat(p) by {
          match LastFormatIndex(p)
          case None =>
          case Some(k) =>
            assert lines[k] == p[k];
        }
      }
    }
  }

  /** The script's if-chain is the first-match rule over the fixed container order. */
  lemma ContainerIsFirstMatch(video: bool, tokens: seq<string>)
    ensures Container(video, tokens) == ReferenceMime(video, tokens)
  {
    var r := FirstKnown(tokens, 0);
    if r.Some? {
      assert forall j :: 0 <= j < r.value ==> ContainerOrder[j] !in tokens;
    }
  }

  /**
   * What `get_mimetype` returns with a probe command, in terms of the lines:
   * an error iff some format line cannot be unpacked; otherwise the default
   * without any format line, else the first-match rule on the last format
   * line's tokens with a video prefix iff some video stream was reported.
   */
  lemma MimeMeaning(probeCmd: Option<string>, lines: seq<string>)
    requires probeCmd.Some?
    ensures GetMimetype(probeCmd, lines).Failure? <==> AnyBadFormat(lines)
    ensures !AnyBadFormat(lines) ==> GetMimetype(probeCmd, lines) == Success(ExpectedMime(lines))
  {
    ScanMeaning(lines);
    if !AnyBadFormat(lines) && LastFormat(lines).Some? {
      ContainerIsFirstMatch(AnyVideo(lines), LastFormat(lines).value);
    }
  }

  /** Without a probe command, or without any format line, the answer is `video/mp4`, whatever the codec lines say. */
  lemma MimeDefault(probeCmd: Option<string>, lines: seq<string>)
    requires probeCmd.None? || forall i :: 0 <= i < |lines| ==> !IsFormatLine(lines[i])
    ensures GetMimetype(probeCmd, lines) == Success(DefaultMime)
  {
    if probeCmd.Some? {
      MimeMeaning(probeCmd, lines);
    }
  }

  /** Only the last format line matters: a new well-formed format line replaces every earlier one. */
  lemma MimeLastFormatWins(probeCmd: Option<string>, lines: seq<string>, line: string)
    requires probeCmd.Some?
    requires IsFormatLine(line) && !IsBadFormatLine(line)
    requires !AnyBadFormat(lines)
    ensures GetMimetype(probeCmd, lines + [line]) == Success(ReferenceMime(AnyVideo(lines), FormatTokens(line)))
  {
    var all := lines + [line];
    LineKindsDisjoint(line);
    assert forall i :: 0 <= i < |lines| ==> all[i] == lines[i];
    assert !AnyBadFormat(all);
    assert AnyVideo(all) == AnyVideo(lines);
    MimeMeaning(probeCmd, all);
  }

  /** Inserting a line that is not a video line keeps `AnyVideo`. */
  lemma AnyVideoInsert(a: seq<string>, b: seq<string>, x: string)
    requires !IsVideoLine(x)
    ensures AnyVideo(a + [x] + b) == AnyVideo(a + b)
  {
    var withX, without := a + [x] + b, a + b;
    if AnyVideo(withX) {
      var i :| 0 <= i < |withX| && IsVideoLine(withX[i]);
      if i < |a| {
        assert without[i] == withX[i];
      } else {
        assert without[i - 1] == withX[i];
      }
    }
    if AnyVideo(without) {
      var i :| 0 <= i < |without| && IsVideoLine(without[i]);
      if i < |a| {
        assert withX[i] == without[i];
      } else {
        assert withX[i + 1] == without[i];
      }
    }
  }

  /** Inserting a line that is not a bad format line keeps `AnyBadFormat`. */
  lemma AnyBadFormatInsert(a: seq<string>, b: seq<string>, x: string)
    requires !IsBadFormatLine(x)
    ensures AnyBadFormat(a + [x] + b) == AnyBadFormat(a + b)
  {
    var withX, without := a + [x] + b, a + b;
    if AnyBadFormat(withX) {
      var i :| 0 <= i < |withX| && IsBadFormatLine(withX[i]);
      if i < |a| {
        assert without[i] == withX[i];
      } else {
        assert without[i - 1] == withX[i];
      }
    }
    if AnyBadFormat(without) {
      var i :| 0 <= i < |without| && IsBadFormatLine(without[i]);
      if i < |a| {
        assert withX[i] == without[i];
      } else {
        assert withX[i + 1] == without[i];
      }
    }
  }

  /** Inserting a line that is not a format line keeps the last format line. */
  lemma LastFormatInsert(a: seq<string>, b: seq<string>, x: string)
    requires !IsFormatLine(x)
    ensures LastFormat(a + [x] + b) == LastFormat(a + b)
  {
    var withX, without := a + [x] + b, a + b;
    match LastFormatIndex(without)
    case None =>
      forall i | 0 <= i < |withX|
        ensures !IsFormatLine(withX[i])
      {
        if i < |a| {
          assert withX[i] == without[i];
        } else if i > |a| {
          assert withX[i] == without[i - 1];
        } else {
          assert withX[i] == x;
        }
      }
    case Some(k) =>
      var k' := if k < |a| then k else k + 1;
      assert withX[k'] == without[k];
      forall j | k' < j < |withX|
        ensures !IsFormatLine(withX[j])
      {
        if j > |a| {
          assert withX[j] == without[j - 1];
        } else if j == |a| {
          assert withX[j] == x;
        } else {
          assert withX[j] == without[j];
        }
      }
      assert LastFormatIndex(withX) == Some(k');
  }

  /**
   * An audio-stream line, wherever it appears, never changes the answer:
   * the call fails or succeeds as before, with the same MIME type.
   */
  lemma MimeAudioIgnored(probeCmd: Option<string>, a: seq<string>, b: seq<string>, audio: string)
    requires IsAudioLine(audio)
    ensures GetMimetype(probeCmd, a + [audio] + b).Success? == GetMimetype(probeCmd, a + b).Success?
    ensures GetMimetype(probeCmd, a + [audio] + b).Success? ==>
      GetMimetype(probeCmd, a + [audio] + b).value == GetMimetype(probeCmd, a + b).value
  {
    if probeCmd.Some? {
      var withX, without := a + [audio] + b, a + b;
      LineKindsDisjoint(audio);
      AnyVideoInsert(a, b, audio);
      AnyBadFormatInsert(a, b, audio);
      LastFormatInsert(a, b, audio);
      assert ExpectedMime(withX) == ExpectedMime(without);
      MimeMeaning(probeCmd, withX);
      MimeMeaning(probeCmd, without);
    }
  }

  /**
   * Unless the winning container is mp3 or wav, the type starts with
   * `video/` exactly when some line reports a video stream.
   */
  lemma MimeVideoPrefix(probeCmd: Option<string>, lines: seq<string>)
    requires probeCmd.Some? && !AnyBadFormat(lines)
    requires LastFormat(lines).Some?
    requires FirstKnown(LastFormat(lines).value, 0) !in {Some(3), Some(4)}
    ensures GetMimetype(probeCmd, lines).Success?
    ensures StartsWith(GetMimetype(probeCmd, lines).value, "video/") <==> AnyVideo(lines)
  {
    MimeMeaning(probeCmd, lines);
    ReferenceKeepsPrefix(AnyVideo(lines), LastFormat(lines).value);
  }

  /** Unless mp3 or wav wins, the reference type starts with `video/` exactly for a video stream. */
  lemma ReferenceKeepsPrefix(video: bool, tokens: seq<string>)
    requires FirstKnown(tokens, 0) !in {Some(3), Some(4)}
    ensures StartsWith(ReferenceMime(video, tokens), "video/") <==> video
  {
    var prefix := if video then "video/" else "audio/";
    var sub := match FirstKnown(tokens, 0) case None => "mp4" case Some(k) => ContainerOrder[k];
    assert ReferenceMime(video, tokens) == prefix + sub;
    PrefixDecides(video, sub);
  }

  /** The stream prefix decides whether a type starts with `video/`. */
  lemma PrefixDecides(video: bool, sub: string)
    ensures StartsWith((if video then "video/" else "audio/") + sub, "video/") <==> video
  {
    var prefix := if video then "video/" else "audio/";
    assert (prefix + sub)[..6] == prefix;
    assert "audio/"[0] != "video/"[0];
  }

  /** A value followed by the probe's line terminator strips back to the value. */
  lemma StripTerminator(v: string)
    requires |v| > 0 && !IsSpace(v[0]) && !IsSpace(v[|v| - 1])
    ensures Strip(v + "\n") == v
  {
    assert TrimStart(v + "\n") == v + "\n";
    assert (v + "\n")[..|v|] == v;
  }

  /** Lower-casing leaves a string without upper-case letters alone. */
  lemma LowerUnchanged(v: string)
    requires forall i :: 0 <= i < |v| ==> !('A' <= v[i] <= 'Z')
    ensures Lower(v) == v
  {
  }

  /** The tokens of a format line whose value is already stripped and lower-case. */
  lemma PlainFormatTokens(v: string)
    requires |v| > 0 && !IsSpace(v[0]) && !IsSpace(v[|v| - 1])
    requires forall i :: 0 <= i < |v| ==> !('A' <= v[i] <= 'Z')
    ensures IsFormatLine(FormatKey + v + "\n")
    ensures FormatValue(FormatKey + v + "\n") == v + "\n"
    ensures FormatTokens(FormatKey + v + "\n") == Split(v, ',')
  {
    FormatLineOf(v, "\n");
    StripTerminator(v);
    LowerUnchanged(v);
  }

  /** `format_name=` followed by any text is a format line whose value is that text. */
  lemma FormatLineOf(v: string, eol: string)
    ensures IsFormatLine(FormatKey + v + eol)
    ensures FormatValue(FormatKey + v + eol) == v + eol
  {
    var line := FormatKey + (v + eol);
    assert line == FormatKey + v + eol;
    assert line[..|FormatKey|] == FormatKey;
    assert line[|FormatKey|..] == v + eol;
  }

  /**
   * A probe output of one stream line followed by one well-formed format
   * line is classified by the reference rule on that line's tokens.
   */
  lemma StreamThenFormat(probe: string, stream: string, format: string)
    requires IsAudioLine(stream) || IsVideoLine(stream)
    requires IsFormatLine(format) && !IsBadFormatLine(format)
    ensures GetMimetype(Some(probe), [stream, format])
      == Success(ReferenceMime(IsVideoLine(stream), FormatTokens(format)))
  {
    var lines := [stream, format];
    LineKindsDisjoint(stream);
    LineKindsDisjoint(format);
    assert LastFormatIndex(lines) == Some(1);
    assert lines[0] == stream && lines[1] == format;
    assert !IsBadFormatLine(stream);
    assert AnyVideo(lines) <==> IsVideoLine(stream);
    assert !AnyBadFormat(lines);
    MimeMeaning(Some(probe), lines);
  }

  /** A plain value after `format_name=` makes a well-formed format line with the value's comma-separated tokens. */
  lemma PlainFormatLine(v: string)
    requires |v| > 0 && !IsSpace(v[0]) && !IsSpace(v[|v| - 1])
    requires forall i :: 0 <= i < |v| ==> !('A' <= v[i] <= 'Z') && v[i] != '='
    ensures IsFormatLine(FormatKey + v + "\n") && !IsBadFormatLine(FormatKey + v + "\n")
    ensures FormatTokens(FormatKey + v + "\n") == Split(v, ',')
  {
    PlainFormatTokens(v);
    var w := v + "\n";
    forall i | 0 <= i < |w|
      ensures w[i] != '='
    {
      if i < |v| {
        assert w[i] == v[i];
      }
    }
  }

  /** The tokens `avi,mp4` with a video stream give `video/mp4`. */
  lemma AviMp4Rule()
    ensures ReferenceMime(true, Split("avi,mp4", ',')) == "video/mp4"
  {
    assert "avi,mp4" == "avi" + [','] + "mp4";
    SplitOnce("avi", "mp4", ',');
    Mp4Listed(true, ["avi", "mp4"]);
  }

  /** Any token list naming `mp4` keeps the stream prefix with the `mp4` subtype. */
  lemma Mp4Listed(video: bool, tokens: seq<string>)
    requires ContainerOrder[0] in tokens
    ensures ReferenceMime(video, tokens) == (if video then "video/" else "audio/") + ContainerOrder[0]
  {
    assert FirstKnown(tokens, 0) == Some(0);
  }

  /** The token `mp3` gives `audio/mpeg` whatever the streams. */
  lemma Mp3Rule(video: bool)
    ensures ReferenceMime(video, Split("mp3", ',')) == "audio/mpeg"
  {
    SplitWithout("mp3", ',');
    assert FirstKnown(["mp3"], 0) == Some(3);
  }

  /** A video stream reported as `avi,mp4` is served as `video/mp4`. */
  lemma MimeExampleAviMp4()
    ensures GetMimetype(Some("ffprobe"), [CodecVideo + "\n", FormatKey + "avi,mp4" + "\n"]) == Success("video/mp4")
  {
    var stream := CodecVideo + "\n";
    assert IsVideoLine(stream) by {
      assert stream[..|CodecVideo|] == CodecVideo;
    }
    PlainFormatLine("avi,mp4");
    StreamThenFormat("ffprobe", stream, FormatKey + "avi,mp4" + "\n");
    AviMp4Rule();
  }

  /** An audio-only mp3 is served as `audio/mpeg`. */
  lemma MimeExampleMp3()
    ensures GetMimetype(Some("avprobe"), [CodecAudio + "\n", FormatKey + "mp3" + "\n"]) == Success("audio/mpeg")
  {
    var stream := CodecAudio + "\n";
    assert IsAudioLine(stream) by {
      assert stream[..|CodecAudio|] == CodecAudio;
    }
    PlainFormatLine("mp3");
    StreamThenFormat("avprobe", stream, FormatKey + "mp3" + "\n");
    Mp3Rule(IsVideoLine(stream));
  }
}
