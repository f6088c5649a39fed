/**
 * The shell command lines the script builds with `%`: the two transcoding
 * templates (`FFMPEG`, `AVCONV`) filled with the file path and the quality
 * settings, and the probe invocation in `get_mimetype`.
 */
module Commands {
  import opened Wrappers
  import opened Percent
  import opened Config
  import opened Transcoder
  import opened Text

  /**
   * The literal text of `FFMPEG` around its three `%s`: fragmented MP4 with
   * the libfdk AAC encoder.
   */
  const FfmpegPieces: seq<string> := [
    "ffmpeg -i \"",
    "\" -preset ",
    " -c:a libfdk_aac -f mp4" + " -frag_duration 3600 -b:v ",
    " -"
  ]

  /**
   * The literal text of `AVCONV` around its three `%s`: fragmented MP4 with
   * the built-in AAC encoder, which needs `-strict experimental`.
   */
  const AvconvPieces: seq<string> := [
    "avconv -i \"",
    "\" -preset ",
    " -c:a aac -f mp4" + " -frag_duration 3600 -b:v ",
    " -strict experimental -"
  ]

  /** `FFMPEG`, `ffmpeg -i "%s" -preset %s ... -b:v %s -`. */
  const FfmpegTemplate := Template(FfmpegPieces)

  /** `AVCONV`, `avconv -i "%s" -preset %s ... -b:v %s -strict experimental -`. */
  const AvconvTemplate := Template(AvconvPieces)

  /** The literal text of the probe invocation in `get_mimetype` around its two `%s`. */
  const ProbePieces: seq<string> := ["", " -show_streams -show_format \"", "\""]

  /** `'%s -show_streams -show_format "%s"'` */
  const ProbeTemplate := Template(ProbePieces)

  /** The transcoding template of a tool. */
  function TemplateOf(t: Tool): string {
    match t
    case Ffmpeg => FfmpegTemplate
    case Avconv => AvconvTemplate
  }

  /** The literal pieces of a tool's template. */
  function PiecesOf(t: Tool): seq<string> {
    match t
    case Ffmpeg => FfmpegPieces
    case Avconv => AvconvPieces
  }

  /** Each template has three slots and no other `%`. */
  lemma TemplateShape(t: Tool)
    ensures |PiecesOf(t)| == 4 && Literal(PiecesOf(t))
    ensures TemplateOf(t) == Template(PiecesOf(t))
  {
    match t
    case Ffmpeg =>
      assert '%' !in " -c:a libfdk_aac -f mp4" + " -frag_duration 3600 -b:v ";
    case Avconv =>
      assert '%' !in " -c:a aac -f mp4" + " -frag_duration 3600 -b:v ";
  }

  /** The probe template has two slots and no other `%`. */
  lemma ProbeShape()
    ensures |ProbePieces| == 3 && Literal(ProbePieces)
  {
  }

  /**
   * `transcoder_command % (filepath, preset, bitrate)` for the tool's
   * template: the path and the two settings land in their slots, copied
   * verbatim whatever they contain.
   */
  function TranscodeCommand(t: Tool, filepath: string, c: Config): (r: Result<string, FormatError>)
    ensures r.Success?
    ensures r.value == PiecesOf(t)[0] + filepath + PiecesOf(t)[1] + c.preset
                       + PiecesOf(t)[2] + c.bitrate + PiecesOf(t)[3]
  {
    TemplateShape(t);
    FormatTemplate(PiecesOf(t), [filepath, c.preset, c.bitrate]);
    InterleaveThree(PiecesOf(t), filepath, c.preset, c.bitrate);
    Format(TemplateOf(t), [filepath, c.preset, c.bitrate])
  }

  /** `'%s -show_streams -show_format "%s"' % (probe, filename)` */
  function ProbeCommandLine(probe: string, filename: string): (r: Result<string, FormatError>)
    ensures r == Success(probe + " -show_streams -show_format \"" + filename + "\"")
  {
    ProbeShape();
    FormatTemplate(ProbePieces, [probe, filename]);
    InterleaveTwo(ProbePieces, probe, filename);
    assert "" + probe == probe;
    Format(ProbeTemplate, [probe, filename])
  }

  /**
   * The step `TranscodeCommand` needs: a four-piece template filled with
   * three arguments is the pieces and arguments in alternation.
   */
  lemma InterleaveThree(p: seq<string>, a: string, b: string, c: string)
    requires |p| == 4
    ensures Interleave(p, [a, b, c]) == p[0] + a + p[1] + b + p[2] + c + p[3]
  {
    var q, r := p[1..], p[1..][1..];
    InterleaveCons(p, [a, b, c]);
    assert [a, b, c][1..] == [b, c];
    InterleaveCons(q, [b, c]);
    assert [b, c][1..] == [c];
    InterleaveCons(r, [c]);
    assert [c][1..] == [];
    assert Interleave(r[1..], []) == p[3];
    assert q[0] == p[1] && r[0] == p[2];
    Nest(p[0], a, p[1], b, p[2], c, p[3]);
  }

  /**
   * The step `ProbeCommandLine` needs: a three-piece template filled with
   * two arguments is the pieces and arguments in alternation.
   */
  lemma InterleaveTwo(p: seq<string>, a: string, b: string)
    requires |p| == 3
    ensures Interleave(p, [a, b]) == p[0] + a + p[1] + b + p[2]
  {
    assert [a, b][1..] == [b];
    assert [b][1..] == [];
    var i2 := Interleave(p[1..][1..], []);
    assert i2 == p[2];
    var i1 := Interleave(p[1..], [b]);
    assert i1 == p[1] + b + p[2];
    assert Interleave(p, [a, b]) == p[0] + a + (p[1] + b + p[2]);
  }

  /** The two templates differ, so the template identifies the tool. */
  lemma TemplatesDiffer()
    ensures FfmpegTemplate != AvconvTemplate
    ensures forall t, u: Tool :: TemplateOf(t) == TemplateOf(u) ==> t == u
  {
    TemplateHead(FfmpegPieces);
    TemplateHead(AvconvPieces);
    assert FfmpegPieces[0][0] != AvconvPieces[0][0];
  }

  /** A template starts with the first character of its first piece. */
  lemma TemplateHead(pieces: seq<string>)
    requires |pieces| >= 2 && |pieces[0]| > 0
    ensures |Template(pieces)| > 0 && Template(pieces)[0] == pieces[0][0]
  {
    TemplateCons(pieces);
  }

  /** Each command starts with its own tool's command name and a space. */
  lemma CommandStartsWithTool(t: Tool, filepath: string, c: Config)
    ensures StartsWith(TranscodeCommand(t, filepath, c).value, t.Command() + " ")
  {
    var p := PiecesOf(t);
    FirstPieceNamesTool(t);
    assert p[0] + filepath + p[1] + c.preset + p[2] + c.bitrate + p[3]
      == p[0] + (filepath + p[1] + c.preset + p[2] + c.bitrate + p[3]);
    StartsWithExtend(p[0], filepath + p[1] + c.preset + p[2] + c.bitrate + p[3], t.Command() + " ");
  }

  /** The first literal piece of each template opens with its tool's name and a space. */
  lemma FirstPieceNamesTool(t: Tool)
    ensures StartsWith(PiecesOf(t)[0], t.Command() + " ")
  {
  }

  /** A prefix of `a` is a prefix of `a + b`. */
  lemma StartsWithExtend(a: string, b: string, x: string)
    requires StartsWith(a, x)
    ensures StartsWith(a + b, x)
  {
    assert (a + b)[..|x|] == a[..|x|];
  }
}
