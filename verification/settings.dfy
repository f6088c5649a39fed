/**
 * The two commands that change the settings file: `save_transcoder` and
 * `save_transcode_quality`. Each validates its arguments first (the script
 * exits before reading or writing anything when they are invalid), then
 * loads the settings, changes them, and produces the text `save_config`
 * writes. A write failure (only reported by the script) is not modelled.
 */
module Settings {
  import opened Wrappers
  import opened Text
  import opened Config

  /** The accepted transcoder names. */
  const TranscoderNames: seq<string> := ["ffmpeg", "avconv"]

  /** The ten accepted quality presets, fastest first. */
  const Presets: seq<string> := [
    "ultrafast", "superfast", "veryfast", "faster", "fast",
    "medium", "slow", "slower", "veryslow", "placebo"
  ]

  /** Why a settings command stops. */
  datatype SettingsError =
    | BadTranscoder              // exit: not ffmpeg or avconv
    | BadPreset                  // exit: not one of the ten presets
    | BadBitrate                 // exit: not an integer after removing the unit
    | Unreadable(cause: LoadError)  // the existing settings file cannot be parsed

  // ---------------------------------------------------------------------
  // Python 2 `int(text)` on a byte string
  // ---------------------------------------------------------------------

  predicate AllSpace(s: string) {
    forall i :: 0 <= i < |s| ==> IsSpace(s[i])
  }

  predicate AllDigits(s: string) {
    forall i :: 0 <= i < |s| ==> IsDigit(s[i])
  }

  /** Length of the run of decimal digits at the start of `s`. */
  function DigitRun(s: string): (n: nat)
    ensures n <= |s|
    ensures forall i :: 0 <= i < n ==> IsDigit(s[i])
    ensures n < |s| ==> !IsDigit(s[n])
    decreases |s|
  {
    if |s| > 0 && IsDigit(s[0]) then 1 + DigitRun(s[1..]) else 0
  }

  /** The text after leading whitespace and an optional sign with the whitespace after it. */
  function AfterSign(s: string): string {
    var a := TrimStart(s);
    if |a| > 0 && (a[0] == '+' || a[0] == '-') then TrimStart(a[1..]) else a
  }

  /**
   * Whether Python 2's `int()` accepts `s` in base 10: leading whitespace,
   * an optional sign, whitespace again (the C conversion skips it after the
   * sign too), one or more digits, and trailing whitespace.
   */
  predicate PyIntAccepts(s: string) {
    var b := AfterSign(s);
    var n := DigitRun(b);
    n > 0 && AllSpace(b[n..])
  }

  /** A string in the shape `int()` accepts, from its five parts. */
  function IntText(lead: string, sign: string, gap: string, digits: string, trail: string): string {
    lead + sign + gap + digits + trail
  }

  /** Whether five parts have the shapes `int()` accepts. */
  predicate IntParts(lead: string, sign: string, gap: string, digits: string, trail: string) {
    AllSpace(lead) && (sign == "" || sign == "+" || sign == "-") && AllSpace(gap)
    && |digits| > 0 && AllDigits(digits) && AllSpace(trail)
  }

  /** Leading whitespace in front of a non-space character is exactly what `TrimStart` drops. */
  lemma TrimStartAfterSpaces(w: string, t: string)
    requires AllSpace(w)
    requires |t| > 0 && !IsSpace(t[0])
    ensures TrimStart(w + t) == t
  {
    var s := w + t;
    var r := TrimStart(s);
    assert forall i :: 0 <= i < |w| ==> s[i] == w[i];
    assert s[|w|] == t[0];
    assert |s| - |r| == |w|;
    assert s[|w|..] == t;
  }

  /** Two runs of whitespace make one. */
  lemma AllSpaceConcat(a: string, b: string)
    requires AllSpace(a) && AllSpace(b)
    ensures AllSpace(a + b)
  {
    assert forall i :: 0 <= i < |a| ==> (a + b)[i] == a[i];
    assert forall i :: |a| <= i < |a + b| ==> (a + b)[i] == b[i - |a|];
  }

  /** Whitespace, a sign, whitespace: `AfterSign` skips exactly that prefix. */
  lemma AfterSignOf(lead: string, sign: string, gap: string, rest: string)
    requires AllSpace(lead) && (sign == "" || sign == "+" || sign == "-") && AllSpace(gap)
    requires |rest| > 0 && !IsSpace(rest[0]) && rest[0] != '+' && rest[0] != '-'
    ensures AfterSign(lead + sign + gap + rest) == rest
  {
    if sign == "" {
      UnsignedOf(lead, gap, rest);
    } else {
      SignedOf(lead, sign, gap, rest);
    }
  }

  /**
   * The unsigned case of `AfterSignOf`: with an empty sign, `AfterSign`
   * skips both runs of whitespace and stops at `rest`.
   */
  lemma UnsignedOf(lead: string, gap: string, rest: string)
    requires AllSpace(lead) && AllSpace(gap)
    requires |rest| > 0 && !IsSpace(rest[0]) && rest[0] != '+' && rest[0] != '-'
    ensures AfterSign(lead + "" + gap + rest) == rest
  {
    AllSpaceConcat(lead, gap);
    AfterNoSign(lead + gap, rest);
    DropEmpty(lead, gap, rest);
  }

  /**
   * The signed case of `AfterSignOf`: `AfterSign` skips the whitespace,
   * the sign and the whitespace after it, and stops at `rest`.
   */
  lemma SignedOf(lead: string, sign: string, gap: string, rest: string)
    requires AllSpace(lead) && (sign == "+" || sign == "-") && AllSpace(gap)
    requires |rest| > 0 && !IsSpace(rest[0])
    ensures AfterSign(lead + sign + gap + rest) == rest
  {
    AfterWithSign(lead, sign, gap, rest);
    Assoc4(lead, sign, gap, rest);
  }

  /** Without a sign, `AfterSign` skips exactly the leading whitespace. */
  lemma AfterNoSign(spaces: string, rest: string)
    requires AllSpace(spaces)
    requires |rest| > 0 && !IsSpace(rest[0]) && rest[0] != '+' && rest[0] != '-'
    ensures AfterSign(spaces + rest) == rest
  {
    TrimStartAfterSpaces(spaces, rest);
  }

  /** With a sign, `AfterSign` skips the whitespace, the sign and the whitespace after it. */
  lemma AfterWithSign(lead: string, sign: string, gap: string, rest: string)
    requires AllSpace(lead) && (sign == "+" || sign == "-") && AllSpace(gap)
    requires |rest| > 0 && !IsSpace(rest[0])
    ensures AfterSign(lead + (sign + (gap + rest))) == rest
  {
    var a := sign + (gap + rest);
    assert a[0] == sign[0];
    TrimStartAfterSpaces(lead, a);
    assert a[1..] == gap + rest;
    TrimStartAfterSpaces(gap, rest);
  }

  /** Every string of the five-part shape is accepted. */
  lemma IntTextAccepted(lead: string, sign: string, gap: string, digits: string, trail: string)
    requires IntParts(lead, sign, gap, digits, trail)
    ensures PyIntAccepts(IntText(lead, sign, gap, digits, trail))
  {
    var rest := digits + trail;
    assert rest[0] == digits[0];
    assert IntText(lead, sign, gap, digits, trail) == lead + sign + gap + rest;
    AfterSignOf(lead, sign, gap, rest);
    DigitRunOf(digits, trail);
    assert rest[|digits|..] == trail;
  }

  /** The digit run of digits followed by whitespace is the digits. */
  lemma {:induction false} DigitRunOf(digits: string, trail: string)
    requires AllDigits(digits) && AllSpace(trail)
    ensures DigitRun(digits + trail) == |digits|
    decreases |digits|
  {
    if |digits| > 0 {
      assert (digits + trail)[1..] == digits[1..] + trail;
      DigitRunOf(digits[1..], trail);
    } else {
      assert digits + trail == trail;
    }
  }

  /** `TrimStart` drops a run of whitespace from the front. */
  lemma TrimStartSplit(s: string) returns (w: string)
    ensures AllSpace(w) && s == w + TrimStart(s)
  {
    var r := TrimStart(s);
    var n := |s| - |r|;
    w := s[..n];
    forall i | 0 <= i < |w|
      ensures IsSpace(w[i])
    {
      assert w[i] == s[i];
    }
    assert s == s[..n] + s[n..];
  }

  /** The sign and the whitespace after it. */
  lemma SignSplit(a: string) returns (sign: string, gap: string)
    requires |a| > 0 && (a[0] == '+' || a[0] == '-')
    ensures (sign == "+" || sign == "-") && AllSpace(gap)
    ensures a == sign + gap + TrimStart(a[1..])
  {
    var t := a[1..];
    gap := TrimStartSplit(t);
    sign := if a[0] == '+' then "+" else "-";
    PrefixOne(a, sign, gap, TrimStart(t));
  }

  /** A string is its first character followed by the rest. */
  lemma PrefixOne(a: string, sign: string, gap: string, rest: string)
    requires |a| > 0 && sign == [a[0]] && a[1..] == gap + rest
    ensures a == sign + gap + rest
  {
    assert a == [a[0]] + a[1..];
  }

  /** The digit run and what follows it. */
  lemma DigitSplit(b: string) returns (digits: string, trail: string)
    requires DigitRun(b) > 0 && AllSpace(b[DigitRun(b)..])
    ensures |digits| > 0 && AllDigits(digits) && AllSpace(trail)
    ensures b == digits + trail
  {
    var n := DigitRun(b);
    digits := b[..n];
    trail := b[n..];
    assert b == b[..n] + b[n..];
  }

  /** Every accepted string has the five-part shape. */
  lemma IntTextComplete(s: string) returns (lead: string, sign: string, gap: string, digits: string, trail: string)
    requires PyIntAccepts(s)
    ensures IntParts(lead, sign, gap, digits, trail)
    ensures s == IntText(lead, sign, gap, digits, trail)
  {
    var a := TrimStart(s);
    lead := TrimStartSplit(s);
    var b := AfterSign(s);
    if |a| > 0 && (a[0] == '+' || a[0] == '-') {
      sign, gap := SignSplit(a);
    } else {
      sign, gap := "", "";
      assert a == sign + gap + b;
    }
    digits, trail := DigitSplit(b);
    Assemble(s, lead, a, sign, gap, b, digits, trail);
  }

  /** An accepted string holds only whitespace, signs and digits. */
  lemma IntTextChars(s: string)
    requires PyIntAccepts(s)
    ensures forall i :: 0 <= i < |s| ==> IsSpace(s[i]) || IsDigit(s[i]) || s[i] == '+' || s[i] == '-'
  {
    var lead, sign, gap, digits, trail := IntTextComplete(s);
    NumberCharsConcat(lead, sign);
    NumberCharsConcat(lead + sign, gap);
    NumberCharsConcat(lead + sign + gap, digits);
    NumberCharsConcat(lead + sign + gap + digits, trail);
  }

  /** Characters that can appear in text `int()` accepts. */
  predicate NumberChars(s: string) {
    forall i :: 0 <= i < |s| ==> IsSpace(s[i]) || IsDigit(s[i]) || s[i] == '+' || s[i] == '-'
  }

  /** Joining two texts of number characters gives a text of number characters. */
  lemma NumberCharsConcat(a: string, b: string)
    requires NumberChars(a) && NumberChars(b)
    ensures NumberChars(a + b)
  {
    forall i | 0 <= i < |a + b|
      ensures var c := (a + b)[i]; IsSpace(c) || IsDigit(c) || c == '+' || c == '-'
    {
      if i < |a| {
        assert (a + b)[i] == a[i];
      } else {
        assert (a + b)[i] == b[i - |a|];
      }
    }
  }

  /** Whitespace followed by digits is accepted. */
  lemma SpaceThenDigits(w: string, digits: string)
    requires AllSpace(w) && |digits| > 0 && AllDigits(digits)
    ensures PyIntAccepts(w + digits)
  {
    AfterNoSign(w, digits);
    DigitRunAll(digits);
  }

  /** A run of digits is its own digit run. */
  lemma {:induction false} DigitRunAll(digits: string)
    requires AllDigits(digits)
    ensures DigitRun(digits) == |digits|
    decreases |digits|
  {
    if |digits| > 0 {
      DigitRunAll(digits[1..]);
    }
  }

  /** A plain run of digits is accepted. */
  lemma DigitsAccepted(digits: string)
    requires |digits| > 0 && AllDigits(digits)
    ensures PyIntAccepts(digits)
  {
    var e := "";
    SpaceThenDigits(e, digits);
    assert e + digits == digits;
  }

  // ---------------------------------------------------------------------
  // Bitrate and preset checks
  // ---------------------------------------------------------------------

  /** The bitrate with at most one trailing `k` or `m` removed. */
  function WithoutUnit(bitrate: string): (r: string)
    ensures |bitrate| - 1 <= |r| <= |bitrate| && r == bitrate[..|r|]
    ensures |r| < |bitrate| <==> |bitrate| > 0 && (bitrate[|bitrate| - 1] == 'k' || bitrate[|bitrate| - 1] == 'm')
  {
    if EndsWith(bitrate, "k") || EndsWith(bitrate, "m") then bitrate[..|bitrate| - 1] else bitrate
  }

  /** The script's bitrate check. */
  predicate BitrateAccepted(bitrate: string) {
    PyIntAccepts(WithoutUnit(bitrate))
  }

  /** One trailing `k` or `m` is dropped. */
  lemma UnitDropped(number: string, unit: char)
    requires unit == 'k' || unit == 'm'
    ensures WithoutUnit(number + [unit]) == number
  {
    var b := number + [unit];
    assert b[|b| - 1..] == [unit];
    assert b[..|b| - 1] == number;
  }

  /** A bitrate not ending in `k` or `m` is checked whole. */
  lemma NoUnit(bitrate: string)
    requires |bitrate| > 0 && bitrate[|bitrate| - 1] != 'k' && bitrate[|bitrate| - 1] != 'm'
    ensures WithoutUnit(bitrate) == bitrate
  {
    assert bitrate[|bitrate| - 1..] == [bitrate[|bitrate| - 1]];
  }

  /** An accepted bitrate never holds a colon, so it cannot break the settings file's records. */
  lemma AcceptedBitrateHasNoColon(bitrate: string)
    requires BitrateAccepted(bitrate)
    ensures ':' !in bitrate
  {
    var w := WithoutUnit(bitrate);
    IntTextChars(w);
    NumberCharsNoColon(w);
    UnitRemoved(bitrate);
  }

  /** Text made of whitespace, digits and signs holds no colon. */
  lemma NumberCharsNoColon(w: string)
    requires forall i :: 0 <= i < |w| ==> IsSpace(w[i]) || IsDigit(w[i]) || w[i] == '+' || w[i] == '-'
    ensures ':' !in w
  {
    forall i | 0 <= i < |w|
      ensures w[i] != ':'
    {
    }
  }

  /** The bitrate is its numeric part followed by at most one unit letter. */
  lemma UnitRemoved(bitrate: string)
    ensures bitrate == WithoutUnit(bitrate)
      || (|bitrate| > 0 && bitrate == WithoutUnit(bitrate) + [bitrate[|bitrate| - 1]]
          && (bitrate[|bitrate| - 1] == 'k' || bitrate[|bitrate| - 1] == 'm'))
  {
    if WithoutUnit(bitrate) != bitrate {
      assert bitrate == bitrate[..|bitrate| - 1] + [bitrate[|bitrate| - 1]];
      assert bitrate[|bitrate| - 1..] == [bitrate[|bitrate| - 1]];
    }
  }

  // ---------------------------------------------------------------------
  // The commands
  // ---------------------------------------------------------------------

  /**
   * A new transcoder name free of colons and line breaks, stored over
   * settings read from a loadable file, round-trips through the text
   * `save_config` writes.
   */
  lemma TranscoderRoundTrip(name: string, file: Option<string>, order: seq<Key>)
    requires IsKeyOrder(order)
    requires Load(file).Success?
    requires ':' !in name && '\n' !in name
    ensures Load(Some(SaveText(Load(file).value.(transcoder := name), order)))
      == Success(Load(file).value.(transcoder := name))
  {
    var c := Load(file).value;
    var u := c.(transcoder := name);
    MissingFileGivesDefaults();
    LoadedIsClean(Defaults, file);
    forall k
      ensures ':' !in u.Get(k) && '\n' !in u.Get(k)
    {
      if k != TranscoderKey {
        assert u.Get(k) == c.Get(k);
      }
    }
    SaveLoadRoundTrip(Defaults, u, order);
  }

  /** The same for a new preset and bitrate. */
  lemma QualityRoundTrip(preset: string, bitrate: string, file: Option<string>, order: seq<Key>)
    requires IsKeyOrder(order)
    requires Load(file).Success?
    requires ':' !in preset && '\n' !in preset && ':' !in bitrate && '\n' !in bitrate
    ensures Load(Some(SaveText(Load(file).value.(preset := preset, bitrate := bitrate), order)))
      == Success(Load(file).value.(preset := preset, bitrate := bitrate))
  {
    QualityClean(preset, bitrate, file);
    SaveLoadRoundTrip(Defaults, Load(file).value.(preset := preset, bitrate := bitrate), order);
  }

  /** Readable settings with a clean preset and bitrate stored are clean. */
  lemma QualityClean(preset: string, bitrate: string, file: Option<string>)
    requires Load(file).Success?
    requires ':' !in preset && '\n' !in preset && ':' !in bitrate && '\n' !in bitrate
    ensures Clean(Load(file).value.(preset := preset, bitrate := bitrate))
  {
    var c := Load(file).value;
    var u := c.(preset := preset, bitrate := bitrate);
    MissingFileGivesDefaults();
    LoadedIsClean(Defaults, file);
    forall k
      ensures ':' !in u.Get(k) && '\n' !in u.Get(k)
    {
      if k == TranscoderKey {
        assert u.Get(k) == c.Get(k);
      }
    }
  }

  /** A transcoder name is clean. */
  lemma TranscoderNameClean(name: string)
    requires name in TranscoderNames
    ensures ':' !in name && '\n' !in name
  {
  }

  /** `save_transcoder(name)`: the new settings file text, or why the command stopped. */
  function SaveTranscoder(name: string, file: Option<string>, order: seq<Key>): (r: Result<string, SettingsError>)
    requires IsKeyOrder(order)
    ensures name !in TranscoderNames ==> r == Failure(BadTranscoder)
    ensures name in TranscoderNames ==> (r.Failure? <==> Load(file).Failure?)
    ensures r.Success? ==> Load(Some(r.value)) == Success(Load(file).value.(transcoder := name))
  {
    if name !in TranscoderNames then Failure(BadTranscoder)
    else
      match Load(file)
      case Failure(e) => Failure(Unreadable(e))
      case Success(c) =>
        var updated := c.(transcoder := name);
        TranscoderNameClean(name);
        TranscoderRoundTrip(name, file, order);
        Success(SaveText(updated, order))
  }

  /**
   * `save_transcode_quality(preset, bitrate)`: the new settings file text,
   * or why the command stopped. Both values are stored as given, the unit
   * included.
   */
  function SaveTranscodeQuality(preset: string, bitrate: string, file: Option<string>, order: seq<Key>)
    : (r: Result<string, SettingsError>)
    requires IsKeyOrder(order)
    ensures preset !in Presets ==> r == Failure(BadPreset)
    ensures preset in Presets && !BitrateAccepted(bitrate) ==> r == Failure(BadBitrate)
    ensures preset in Presets && BitrateAccepted(bitrate) ==> (r.Failure? <==> Load(file).Failure?)
    ensures r.Success? && '\n' !in bitrate ==>
      Load(Some(r.value)) == Success(Load(file).value.(preset := preset, bitrate := bitrate))
  {
    if preset !in Presets then Failure(BadPreset)
    else if !BitrateAccepted(bitrate) then Failure(BadBitrate)
    else
      match Load(file)
      case Failure(e) => Failure(Unreadable(e))
      case Success(c) =>
        var updated := c.(preset := preset, bitrate := bitrate);
        if '\n' !in bitrate then
          PresetClean(preset);
          AcceptedBitrateHasNoColon(bitrate);
          QualityRoundTrip(preset, bitrate, file, order);
          Success(SaveText(updated, order))
        else
          Success(SaveText(updated, order))
  }

  /** A preset is clean. */
  lemma PresetClean(preset: string)
    requires preset in Presets
    ensures ':' !in preset && '\n' !in preset
  {
  }

  /** The bitrate shape the usage text describes: digits, then at most one `k` or `m`. */
  predicate StrictBitrate(bitrate: string) {
    var digits := WithoutUnit(bitrate);
    |digits| > 0 && AllDigits(digits)
  }

  /** `save_transcode_quality` with the bitrate check narrowed to `StrictBitrate`. */
  function SaveTranscodeQualityStrict(preset: string, bitrate: string, file: Option<string>, order: seq<Key>)
    : (r: Result<string, SettingsError>)
    requires IsKeyOrder(order)
    ensures preset !in Presets ==> r == Failure(BadPreset)
    ensures preset in Presets && !StrictBitrate(bitrate) ==> r == Failure(BadBitrate)
    ensures preset in Presets && StrictBitrate(bitrate) ==> (r.Failure? <==> Load(file).Failure?)
    ensures r.Success? ==>
      Load(Some(r.value)) == Success(Load(file).value.(preset := preset, bitrate := bitrate))
  {
    if preset !in Presets then Failure(BadPreset)
    else if !StrictBitrate(bitrate) then Failure(BadBitrate)
    else
      match Load(file)
      case Failure(e) => Failure(Unreadable(e))
      case Success(c) =>
        var updated := c.(preset := preset, bitrate := bitrate);
        PresetClean(preset);
        StrictBitrateIsClean(bitrate);
        QualityRoundTrip(preset, bitrate, file, order);
        Success(SaveText(updated, order))
  }

  /** A strict bitrate holds neither a colon nor a line break. */
  lemma StrictBitrateIsClean(bitrate: string)
    requires StrictBitrate(bitrate)
    ensures ':' !in bitrate && '\n' !in bitrate
  {
    var digits := WithoutUnit(bitrate);
    if digits != bitrate {
      assert bitrate == digits + [bitrate[|bitrate| - 1]];
    }
  }

  /** The strict check only narrows the script's: every strict bitrate passes `int()`. */
  lemma StrictBitrateAccepted(bitrate: string)
    requires StrictBitrate(bitrate)
    ensures BitrateAccepted(bitrate)
  {
    DigitsAccepted(WithoutUnit(bitrate));
  }

  /**
   * The script accepts a bitrate made of a line break and digits, such as
   * "\n5" (`int` skips the line break), but the record it writes is broken
   * by that line break: whatever the settings and the key order, the
   * settings read back hold the new preset and an empty bitrate.
   */
  lemma NewlineBitrateLost(preset: string, digits: string, file: Option<string>, order: seq<Key>)
    requires IsKeyOrder(order) && Load(file).Success?
    requires preset in Presets && |digits| > 0 && AllDigits(digits)
    ensures SaveTranscodeQuality(preset, "\n" + digits, file, order).Success?
    ensures Load(Some(SaveTranscodeQuality(preset, "\n" + digits, file, order).value))
      == Success(Load(file).value.(preset := preset, bitrate := ""))
  {
    var lost := Load(file).value.(preset := preset, bitrate := "");
    NewlineBitrateAccepted(digits);
    QualitySaved(preset, "\n" + digits, file, order);
    PresetClean(preset);
    DigitsClean(digits);
    QualityClean(preset, "", file);
    var b := lost.Get(BitrateKey) + "\n" + digits;
    assert lost.Get(BitrateKey) == "";
    assert "" + "\n" == "\n";
    assert b == "\n" + digits;
    assert lost.Set(BitrateKey, b) == lost.(bitrate := b);
    BrokenValueCut(Defaults, lost, BitrateKey, digits, order);
    SaveLoadRoundTrip(Defaults, lost, order);
  }

  /** Valid quality settings over readable settings are saved, line breaks and all. */
  lemma QualitySaved(preset: string, bitrate: string, file: Option<string>, order: seq<Key>)
    requires IsKeyOrder(order)
    requires preset in Presets && BitrateAccepted(bitrate) && Load(file).Success?
    ensures SaveTranscodeQuality(preset, bitrate, file, order)
      == Success(SaveText(Load(file).value.(preset := preset, bitrate := bitrate), order))
  {
  }

  /** A line break followed by digits passes the bitrate check: `int` skips the line break. */
  lemma NewlineBitrateAccepted(digits: string)
    requires |digits| > 0 && AllDigits(digits)
    ensures BitrateAccepted("\n" + digits)
  {
    var s := "\n" + digits;
    assert s[|s| - 1] == digits[|digits| - 1];
    NoUnit(s);
    SpaceThenDigits("\n", digits);
  }

  /** Digits hold neither a colon nor a line break. */
  lemma DigitsClean(digits: string)
    requires AllDigits(digits)
    ensures ':' !in digits && '\n' !in digits
  {
    forall i | 0 <= i < |digits|
      ensures digits[i] != ':' && digits[i] != '\n'
    {
      assert IsDigit(digits[i]);
    }
  }

  /**
   * `-reset_transcode_quality` stores the compiled-in preset and bitrate:
   * both pass the checks, so it fails only on an unreadable settings file,
   * and otherwise the file reads back with those two values.
   */
  lemma ResetQualityAccepted(file: Option<string>, order: seq<Key>)
    requires IsKeyOrder(order)
    ensures SaveTranscodeQuality(Defaults.preset, Defaults.bitrate, file, order).Success? <==> Load(file).Success?
    ensures Load(file).Success? ==>
      Load(Some(SaveTranscodeQuality(Defaults.preset, Defaults.bitrate, file, order).value))
        == Success(Load(file).value.(preset := Defaults.preset, bitrate := Defaults.bitrate))
  {
    DefaultQualityValid();
    DefaultBitrateOneLine();
    ValidQualitySaved(Defaults.preset, Defaults.bitrate, file, order);
  }

  /** The compiled-in preset and bitrate, and the bitrate holds no line break. */
  lemma DefaultBitrateOneLine()
    ensures Defaults.preset == "ultrafast" && Defaults.bitrate == "2000k"
    ensures '\n' !in Defaults.bitrate
  {
  }

  /** A valid preset and a line-break-free valid bitrate are stored whenever the settings are readable. */
  lemma ValidQualitySaved(preset: string, bitrate: string, file: Option<string>, order: seq<Key>)
    requires IsKeyOrder(order)
    requires preset in Presets && BitrateAccepted(bitrate) && '\n' !in bitrate
    ensures SaveTranscodeQuality(preset, bitrate, file, order).Success? <==> Load(file).Success?
    ensures Load(file).Success? ==>
      Load(Some(SaveTranscodeQuality(preset, bitrate, file, order).value))
        == Success(Load(file).value.(preset := preset, bitrate := bitrate))
  {
  }

  /** The compiled-in preset and bitrate pass the checks. */
  lemma DefaultQualityValid()
    ensures "ultrafast" in Presets && BitrateAccepted("2000k")
  {
    assert Presets[0] == "ultrafast";
    assert "2000k" == "2000" + ['k'];
    UnitDropped("2000", 'k');
    DigitsAccepted("2000");
  }
}
