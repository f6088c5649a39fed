/**
 * `validate_args` and `run`: from `sys.argv` to the action the script takes.
 * Two of the option tests are written `arg1 in ("-set_transcoder")` and
 * `arg1 in ("-transcode")`; without a trailing comma the parentheses make a
 * string, not a tuple, so those tests ask whether `arg1` is a SUBSTRING of
 * the option word. The model keeps that behaviour.
 */
module Cli {
  import opened Text
  import opened Config

  /** The action `run` takes. Volume text is kept as given (`float` is not modelled). */
  datatype Command =
    | Stop
    | Pause
    | Continue
    | Status
    | SetVolume(level: string)
    | VolumeUp
    | VolumeDown
    | Mute
    | Play(filename: string, transcode: bool)
    | SetTranscoder(name: string)
    | SetQuality(preset: string, bitrate: string)

  /** How an invocation ends before or while dispatching. */
  datatype Outcome =
    | Usage                // `sys.exit(USAGETEXT)`
    | MissingArgument      // `sys.argv[2]` raised `IndexError`
    | Execute(cmd: Command)

  /** The options `validate_args` lets through without looking further. */
  const NoArgumentOptions: seq<string> := ["-stop", "-pause", "-continue", "-reset_transcode_quality"]

  /** `validate_args()`: whether the argument count is acceptable. */
  predicate ArgsValid(argv: seq<string>) {
    if |argv| < 2 then false
    else if argv[1] in NoArgumentOptions then true
    else if IsSubstring(argv[1], "-set_transcoder") then |argv| >= 3
    else if argv[1] == "-set_transcode_quality" then |argv| >= 4
    else true
  }

  /** `run()` after validation: the option word picks the action. */
  function Dispatch(argv: seq<string>): (r: Outcome)
    ensures r == Usage <==> !ArgsValid(argv)
    ensures r.Execute? && r.cmd.SetTranscoder? ==> |argv| >= 3 && r.cmd.name == Lower(argv[2])
    ensures r.Execute? && r.cmd.SetQuality? ==>
      if argv[1] == "-reset_transcode_quality" then r.cmd == SetQuality(Defaults.preset, Defaults.bitrate)
      else |argv| >= 4 && r.cmd == SetQuality(Lower(argv[2]), Lower(argv[3]))
  {
    if !ArgsValid(argv) then Usage
    else
      var arg1 := argv[1];
      if arg1 == "-stop" then Execute(Stop)
      else if arg1 == "-pause" then Execute(Pause)
      else if arg1 == "-continue" then Execute(Continue)
      else if arg1 == "-status" then Execute(Status)
      else if arg1 == "-setvol" then
        if |argv| < 3 then MissingArgument else Execute(SetVolume(argv[2]))
      else if arg1 == "-volup" then Execute(VolumeUp)
      else if arg1 == "-voldown" then Execute(VolumeDown)
      else if arg1 == "-mute" then Execute(Mute)
      else if IsSubstring(arg1, "-transcode") then
        if |argv| < 3 then MissingArgument else Execute(Play(argv[2], true))
      else if arg1 == "-set_transcoder" then
        ValidSetTranscoder(argv);
        Execute(SetTranscoder(Lower(argv[2])))
      else if arg1 == "-set_transcode_quality" then
        ValidSetQuality(argv);
        Execute(SetQuality(Lower(argv[2]), Lower(argv[3])))
      else if arg1 == "-reset_transcode_quality" then Execute(SetQuality(Defaults.preset, Defaults.bitrate))
      else Execute(Play(arg1, false))
  }

  /** Validation guarantees `-set_transcoder` its name. */
  lemma ValidSetTranscoder(argv: seq<string>)
    requires ArgsValid(argv) && |argv| >= 2 && argv[1] == "-set_transcoder"
    ensures |argv| >= 3
  {
    SubstringReflexive("-set_transcoder");
  }

  /** Validation guarantees `-set_transcode_quality` its preset and bitrate. */
  lemma ValidSetQuality(argv: seq<string>)
    requires ArgsValid(argv) && |argv| >= 2 && argv[1] == "-set_transcode_quality"
    ensures |argv| >= 4
  {
    NotSubstringByChar(argv[1], "-set_transcoder", 'q');
  }

  /** An option word can only be a substring of a word holding all its characters. */
  lemma NotSubstringByChar(needle: string, haystack: string, c: char)
    requires c in needle && c !in haystack
    ensures !IsSubstring(needle, haystack)
  {
    if IsSubstring(needle, haystack) {
      SubstringChars(needle, haystack, c);
    }
  }

  /** Usage is shown exactly when an argument the option needs is missing. */
  lemma UsageIff(argv: seq<string>)
    ensures Dispatch(argv) == Usage <==>
      |argv| < 2
      || (argv[1] !in NoArgumentOptions && IsSubstring(argv[1], "-set_transcoder") && |argv| < 3)
      || (argv[1] == "-set_transcode_quality" && |argv| < 4)
  {
    if |argv| >= 2 && argv[1] == "-set_transcode_quality" {
      NotSubstringByChar(argv[1], "-set_transcoder", 'q');
    }
  }

  /** No option word of `validate_args`'s list is part of `-transcode`. */
  lemma NoArgumentOptionsNotTranscode(w: string)
    requires w in NoArgumentOptions
    ensures !IsSubstring(w, "-transcode")
  {
    if w == "-stop" {
      NotSubstringByChar(w, "-transcode", 'p');
    } else if w == "-pause" {
      NotSubstringByChar(w, "-transcode", 'p');
    } else if w == "-continue" {
      NotSubstringByChar(w, "-transcode", 'u');
    } else {
      NotSubstringByChar(w, "-transcode", 'q');
    }
  }

  /**
   * Any part of `-transcode` other than the eight simple option words,
   * followed by a file, plays that file with transcoding.
   */
  lemma TranscodeAbbreviations(argv: seq<string>)
    requires |argv| >= 3 && IsSubstring(argv[1], "-transcode")
    requires argv[1] !in ["-stop", "-pause", "-continue", "-status", "-setvol", "-volup", "-voldown", "-mute"]
    ensures Dispatch(argv) == Execute(Play(argv[2], true))
  {
    if argv[1] in NoArgumentOptions {
      NoArgumentOptionsNotTranscode(argv[1]);
    }
    assert ArgsValid(argv);
  }

  /**
   * A word holding a character that `-set_transcoder` lacks (so none of
   * `-transcode` either) and not starting with `-` plays that file
   * without transcoding.
   */
  lemma PlainFilePlays(argv: seq<string>, c: char)
    requires |argv| >= 2 && argv[1] != "" && argv[1][0] != '-'
    requires c in argv[1] && c !in "-set_transcoder"
    ensures Dispatch(argv) == Execute(Play(argv[1], false))
  {
    NotSubstringByChar(argv[1], "-set_transcoder", c);
    NotSubstringByChar(argv[1], "-transcode", c);
  }

  /** `-reset_transcode_quality` stores the compiled-in preset and bitrate. */
  lemma ResetUsesDefaults(argv: seq<string>)
    requires |argv| >= 2 && argv[1] == "-reset_transcode_quality"
    ensures Dispatch(argv) == Execute(SetQuality("ultrafast", "2000k"))
  {
    NotSubstringByChar(argv[1], "-transcode", 'q');
  }

  /** `-set_transcoder FFmpeg` stores the lower-case name. */
  lemma SetTranscoderLowers(prog: string)
    ensures Dispatch([prog, "-set_transcoder", "FFmpeg"]) == Execute(SetTranscoder("ffmpeg"))
  {
    SubstringReflexive("-set_transcoder");
    NotSubstringByChar("-set_transcoder", "-transcode", '_');
    assert Lower("FFmpeg") == "ffmpeg";
  }

  /**
   * `-t` is part of `-transcode` but not of `-set_transcoder`: validation
   * lets it through alone, and `run` then finds no file argument.
   */
  lemma ShortTranscodeOption(prog: string, name: string)
    ensures Dispatch([prog, "-t", name]) == Execute(Play(name, true))
    ensures Dispatch([prog, "-t"]) == MissingArgument
  {
    SubstringAt("-t", "-transcode", 0);
    DashTNotInSetTranscoder();
  }

  /** `-t` is no part of `-set_transcoder`: after its dash comes `s`, not `t`. */
  lemma DashTNotInSetTranscoder()
    ensures !IsSubstring("-t", "-set_transcoder")
  {
    var h := "-set_transcoder";
    var rest := h[1..];
    assert rest == "set_transcoder" && '-' !in rest;
    forall k | 0 <= k <= |h|
      ensures !OccursAt("-t", h, k)
    {
      if k == 0 {
        assert h[0..2] == "-s";
      } else if k + 2 <= |h| {
        assert h[k..k + 2][0] == rest[k - 1];
      }
    }
  }

  /** `-setvol` is not checked by validation, so a missing level raises. */
  lemma SetVolumeWithoutLevel(prog: string)
    ensures Dispatch([prog, "-setvol"]) == MissingArgument
  {
    NotSubstringByChar("-setvol", "-set_transcoder", 'v');
  }

  // ---------------------------------------------------------------------
  // The substring tests misread some file names.
  // ---------------------------------------------------------------------

  /**
   * A file called `code` cannot be played: `code` is part of
   * `-set_transcoder`, so alone it is a usage error, and it is part of
   * `-transcode`, so with a second word that word is played with transcoding.
   */
  lemma FileNamedCodeMisread(prog: string, other: string)
    ensures Dispatch([prog, "code"]) == Usage
    ensures Dispatch([prog, "code", other]) == Execute(Play(other, true))
  {
    CodeIsPartOfOptions();
    assert "code" !in NoArgumentOptions;
    CodeWithFile(prog, other);
  }

  /** `code` is part of both `-set_transcoder` and `-transcode`. */
  lemma CodeIsPartOfOptions()
    ensures IsSubstring("code", "-set_transcoder") && IsSubstring("code", "-transcode")
  {
    SubstringAt("code", "-set_transcoder", 10);
    SubstringAt("code", "-transcode", 6);
  }

  /**
   * The second half of `FileNamedCodeMisread`: `code` is part of
   * `-transcode`, so `code X` is dispatched as a transcoding play of X.
   */
  lemma CodeWithFile(prog: string, other: string)
    ensures Dispatch([prog, "code", other]) == Execute(Play(other, true))
  {
    var argv := [prog, "code", other];
    CodeIsPartOfOptions();
    assert argv[1] == "code";
    TranscodeAbbreviations(argv);
  }

  /**
   * `validate_args` as evidently intended, with `-set_transcoder` compared
   * for equality like every other option word.
   */
  predicate ArgsValidIntended(argv: seq<string>) {
    if |argv| < 2 then false
    else if argv[1] == "-set_transcoder" then |argv| >= 3
    else if argv[1] == "-set_transcode_quality" then |argv| >= 4
    else true
  }

  /**
   * `run` as evidently intended, with `-set_transcoder` and `-transcode`
   * compared for equality like every other option word.
   */
  function DispatchIntended(argv: seq<string>): (r: Outcome)
    ensures r == Usage <==>
      |argv| < 2 || (argv[1] == "-set_transcoder" && |argv| < 3)
      || (argv[1] == "-set_transcode_quality" && |argv| < 4)
    ensures r.Execute? && r.cmd.Play? && !r.cmd.transcode ==> r.cmd.filename == argv[1]
  {
    if !ArgsValidIntended(argv) then Usage
    else
      var arg1 := argv[1];
      if arg1 == "-stop" then Execute(Stop)
      else if arg1 == "-pause" then Execute(Pause)
      else if arg1 == "-continue" then Execute(Continue)
      else if arg1 == "-status" then Execute(Status)
      else if arg1 == "-setvol" then
        if |argv| < 3 then MissingArgument else Execute(SetVolume(argv[2]))
      else if arg1 == "-volup" then Execute(VolumeUp)
      else if arg1 == "-voldown" then Execute(VolumeDown)
      else if arg1 == "-mute" then Execute(Mute)
      else if arg1 == "-transcode" then
        if |argv| < 3 then MissingArgument else Execute(Play(argv[2], true))
      else if arg1 == "-set_transcoder" then Execute(SetTranscoder(Lower(argv[2])))
      else if arg1 == "-set_transcode_quality" then Execute(SetQuality(Lower(argv[2]), Lower(argv[3])))
      else if arg1 == "-reset_transcode_quality" then Execute(SetQuality(Defaults.preset, Defaults.bitrate))
      else Execute(Play(arg1, false))
  }

  /** The option words `run` knows. */
  const OptionWords: seq<string> := [
    "-stop", "-pause", "-continue", "-status", "-setvol", "-volup", "-voldown", "-mute",
    "-transcode", "-set_transcoder", "-set_transcode_quality", "-reset_transcode_quality"
  ]

  /** With equality tests every word that is not an option plays that file untranscoded. */
  lemma IntendedPlainFilePlays(argv: seq<string>)
    requires |argv| >= 2 && argv[1] !in OptionWords
    ensures DispatchIntended(argv) == Execute(Play(argv[1], false))
  {
  }

  /** The intended dispatch agrees with the script whenever the word holds a character `-set_transcoder` lacks. */
  lemma IntendedAgrees(argv: seq<string>, c: char)
    requires |argv| >= 2 && c in argv[1] && c !in "-set_transcoder"
    ensures DispatchIntended(argv) == Dispatch(argv)
  {
    NotSubstringByChar(argv[1], "-set_transcoder", c);
    NotSubstringByChar(argv[1], "-transcode", c);
  }

  /** The file `code` plays under the intended dispatch. */
  lemma FileNamedCodeIntended(prog: string)
    ensures DispatchIntended([prog, "code"]) == Execute(Play("code", false))
  {
    IntendedPlainFilePlays([prog, "code"]);
  }
}
