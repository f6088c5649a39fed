/**
 * The settings file (`load_config`, `save_config`) as text: one
 * `key:value` record per line for the three known keys. A file that cannot
 * be opened for reading is `None`.
 *
 * The script's `load_config` starts from the module-level default dictionary
 * itself and so updates it in place; here the defaults are an immutable value
 * and `LoadFrom` takes the starting configuration explicitly, so that
 * `LoadTwiceIdempotent` can show that the in-place update is harmless when the
 * same file is read again.
 */
module Config {
  import opened Wrappers
  import opened Text

  /** The three settings, one per key of the default dictionary. */
  datatype Key = TranscoderKey | PresetKey | BitrateKey

  /** The key as it is spelt in the settings file. */
  function KeyName(k: Key): string {
    match k
    case TranscoderKey => "transcoder"
    case PresetKey => "ffmpeg_preset"
    case BitrateKey => "ffmpeg_bitrate"
  }

  /** The key a name spells, if any: `name in config.keys()`. */
  function KeyNamed(name: string): (r: Option<Key>)
    ensures r.Some? ==> KeyName(r.value) == name
    ensures r.None? ==> forall k :: KeyName(k) != name
  {
    if name == "transcoder" then Some(TranscoderKey)
    else if name == "ffmpeg_preset" then Some(PresetKey)
    else if name == "ffmpeg_bitrate" then Some(BitrateKey)
    else None
  }

  /** A complete configuration: every key has a value. */
  datatype Config = Config(transcoder: string, preset: string, bitrate: string) {

    function Get(k: Key): string {
      match k
      case TranscoderKey => transcoder
      case PresetKey => preset
      case BitrateKey => bitrate
    }

    /** `config[k] = v` */
    function Set(k: Key, v: string): (c: Config)
      ensures c.Get(k) == v
      ensures forall k' :: k' != k ==> c.Get(k') == Get(k')
    {
      match k
      case TranscoderKey => this.(transcoder := v)
      case PresetKey => this.(preset := v)
      case BitrateKey => this.(bitrate := v)
    }
  }

  /** The compiled-in defaults. */
  const Defaults := Config("ffmpeg", "ultrafast", "2000k")

  /** A line with two or more colons: the two-name unpack of its split fails. */
  datatype LoadError = UnpackLine(line: string)

  /** A line that sets key `k`: the key's name, a colon, and a colon-free value. */
  predicate IsRecordFor(line: string, k: Key) {
    var n := |KeyName(k)|;
    StartsWith(line, KeyName(k) + ":") && ':' !in line[n + 1..]
  }

  /** The value such a line sets. */
  function RecordValue(line: string, k: Key): string
    requires IsRecordFor(line, k)
  {
    line[|KeyName(k)| + 1..]
  }

  /** In `first:second` with colon-free parts, the only colon is the one between them. */
  lemma ColonAt(first: string, second: string, i: int)
    requires ':' !in first && ':' !in second
    requires 0 <= i < |first + ":" + second| && (first + ":" + second)[i] == ':'
    ensures i == |first|
  {
    var line := first + ":" + second;
    assert forall j :: 0 <= j < |first| ==> line[j] == first[j];
    assert forall j :: |first| < j < |line| ==> line[j] == second[j - |first| - 1];
  }

  /** A line holding `first:second` with neither part holding a colon sets a key exactly when `first` is its name. */
  lemma RecordForIff(first: string, second: string, k: Key)
    requires ':' !in first && ':' !in second
    ensures IsRecordFor(first + ":" + second, k) <==> first == KeyName(k)
    ensures first == KeyName(k) ==> RecordValue(first + ":" + second, k) == second
  {
    var line := first + ":" + second;
    var name := KeyName(k);
    assert ':' !in name;
    if first == name {
      assert line[..|name| + 1] == name + ":";
      assert line[|name| + 1..] == second;
    }
    if IsRecordFor(line, k) {
      assert line[..|name| + 1] == name + ":";
      ColonAt(first, second, |name|);
      assert first == line[..|first|];
    }
  }

  /** A line sets at most one key. */
  lemma RecordKeyUnique(line: string, k: Key, k': Key)
    requires IsRecordFor(line, k) && IsRecordFor(line, k')
    ensures k == k'
  {
    var name := KeyName(k);
    RecordForIff(name, line[|name| + 1..], k');
    assert line == name + ":" + line[|name| + 1..] by {
      assert line[..|name| + 1] == name + ":";
    }
  }

  /** One line of the settings file, applied to the configuration read so far. */
  function LoadLine(c: Config, line: string): Result<Config, LoadError> {
    if ':' !in line then Success(c)
    else
      var parts := Split(line, ':');
      if |parts| != 2 then Failure(UnpackLine(line))
      else
        match KeyNamed(parts[0])
        case None => Success(c)
        case Some(k) => Success(c.Set(k, parts[1]))
  }

  /** A colon-free line sets no key. */
  lemma NoColonNoRecord(line: string, k: Key)
    requires ':' !in line
    ensures !IsRecordFor(line, k)
  {
    var n := |KeyName(k)|;
    if |line| >= n + 1 {
      assert line[..n + 1][n] != (KeyName(k) + ":")[n];
    }
  }

  /** One line fails exactly when it holds two or more colons. */
  lemma LoadLineFailsIff(c: Config, line: string)
    ensures LoadLine(c, line).Failure? <==> Count(line, ':') >= 2
  {
    SplitCount(line, ':');
    CountZero(line, ':');
    if ':' in line && |Split(line, ':')| == 2 {
      LineOfTwoParts(line);
      assert LoadLine(c, line).Success?;
    }
  }

  /** A line that sets a key replaces that key's value. */
  lemma LoadLineSets(c: Config, line: string, k: Key)
    requires IsRecordFor(line, k)
    ensures LoadLine(c, line) == Success(c.Set(k, RecordValue(line, k)))
  {
    var name, v := KeyName(k), RecordValue(line, k);
    RecordSplit(line, k);
    SplitOnce(name, v, ':');
    assert line[|name|] == ':';
    KeyNameRoundTrip(k);
  }

  /** A record is its key's name, a colon, and its value, with no other colon. */
  lemma RecordSplit(line: string, k: Key)
    requires IsRecordFor(line, k)
    ensures line == KeyName(k) + [':'] + RecordValue(line, k)
    ensures ':' !in KeyName(k) && ':' !in RecordValue(line, k)
  {
    var n := |KeyName(k)|;
    assert line[..n + 1] == KeyName(k) + ":";
    assert line == line[..n + 1] + line[n + 1..];
    KeyNameRoundTrip(k);
  }

  /** Each key's name names that key, and holds no colon or line break. */
  lemma KeyNameRoundTrip(k: Key)
    ensures KeyNamed(KeyName(k)) == Some(k)
    ensures ':' !in KeyName(k) && '\n' !in KeyName(k)
  {
  }

  /** A line with fewer than two colons that sets no key changes nothing. */
  lemma LoadLineIgnores(c: Config, line: string)
    requires Count(line, ':') < 2
    requires forall k :: !IsRecordFor(line, k)
    ensures LoadLine(c, line) == Success(c)
  {
    SplitCount(line, ':');
    CountZero(line, ':');
    if ':' in line {
      assert |Split(line, ':')| == 2;
      LineOfTwoParts(line);
      assert KeyNamed(Split(line, ':')[0]).None?;
    }
  }

  /** A line that splits on colons into two parts is those parts around one colon. */
  lemma LineOfTwoParts(line: string)
    requires |Split(line, ':')| == 2
    ensures var parts := Split(line, ':');
      line == parts[0] + ":" + parts[1] && ':' !in parts[0] && ':' !in parts[1]
      && (forall k :: IsRecordFor(line, k) <==> parts[0] == KeyName(k))
      && (forall k :: IsRecordFor(line, k) ==> RecordValue(line, k) == parts[1])
  {
    var parts := Split(line, ':');
    JoinSplit(line, ':');
    SplitFreeOf(line, ':');
    assert Join(parts, ':') == parts[0] + [':'] + parts[1];
    assert line == parts[0] + ":" + parts[1];
    forall k
      ensures IsRecordFor(line, k) <==> parts[0] == KeyName(k)
      ensures IsRecordFor(line, k) ==> RecordValue(line, k) == parts[1]
    {
      RecordForIff(parts[0], parts[1], k);
    }
  }

  /** The lines of a settings file, first to last, starting from `base`; the first bad line aborts. */
  function LoadLines(base: Config, lines: seq<string>): Result<Config, LoadError>
    decreases |lines|
  {
    if |lines| == 0 then Success(base)
    else
      var c :- LoadLines(base, lines[..|lines| - 1]);
      LoadLine(c, lines[|lines| - 1])
  }

  /** `load_config()` starting from `base`: a missing or unreadable file leaves `base` as it is. */
  function LoadFrom(base: Config, file: Option<string>): Result<Config, LoadError> {
    match file
    case None => Success(base)
    case Some(text) => LoadLines(base, Split(text, '\n'))
  }

  /** `load_config()`: the file read over the defaults. */
  function Load(file: Option<string>): (r: Result<Config, LoadError>)
    ensures file.None? ==> r == Success(Config("ffmpeg", "ultrafast", "2000k"))
  {
    LoadFrom(Defaults, file)
  }

  /** One record as `save_config` writes it, without the line break. */
  function Record(c: Config, k: Key): string {
    KeyName(k) + ":" + c.Get(k)
  }

  /** `save_config(config)`: one record per key, in the dictionary's iteration order `order`. */
  function SaveText(c: Config, order: seq<Key>): (r: string)
    ensures r == "" <==> |order| == 0
    ensures |order| > 0 ==> r[|r| - 1] == '\n'
    decreases |order|
  {
    if |order| == 0 then "" else Record(c, order[0]) + "\n" + SaveText(c, order[1..])
  }

  /** The iteration order of a three-key dictionary: each key once. */
  predicate IsKeyOrder(order: seq<Key>) {
    |order| == 3 && TranscoderKey in order && PresetKey in order && BitrateKey in order
  }

  /** No value holds a colon or a line break, so each survives a save and a load. */
  predicate Clean(c: Config) {
    forall k :: ':' !in c.Get(k) && '\n' !in c.Get(k)
  }

  // ---------------------------------------------------------------------
  // Reference definition: the last record for each key wins.
  // ---------------------------------------------------------------------

  /** The position of the last line that sets `k`, if any. */
  function LastRecordIndex(lines: seq<string>, k: Key): (r: Option<nat>)
    ensures r.None? <==> forall i :: 0 <= i < |lines| ==> !IsRecordFor(lines[i], k)
    ensures r.Some? ==> r.value < |lines| && IsRecordFor(lines[r.value], k)
    ensures r.Some? ==> forall j :: r.value < j < |lines| ==> !IsRecordFor(lines[j], k)
  {
    LastRecordBefore(lines, k, |lines|)
  }

  /** The position of the last line before position `n` that sets `k`, if any. */
  function LastRecordBefore(lines: seq<string>, k: Key, n: nat): (r: Option<nat>)
    requires n <= |lines|
    ensures r.None? <==> forall i :: 0 <= i < n ==> !IsRecordFor(lines[i], k)
    ensures r.Some? ==> r.value < n && IsRecordFor(lines[r.value], k)
    ensures r.Some? ==> forall j :: r.value < j < n ==> !IsRecordFor(lines[j], k)
  {
    if n == 0 then None
    else if IsRecordFor(lines[n - 1], k) then Some(n - 1)
    else LastRecordBefore(lines, k, n - 1)
  }

  /** The search before `n` only looks at the first `n` lines. */
  lemma {:induction false} LastRecordBeforeAgree(a: seq<string>, b: seq<string>, k: Key, n: nat)
    requires n <= |a| && n <= |b|
    requires forall i :: 0 <= i < n ==> a[i] == b[i]
    ensures LastRecordBefore(a, k, n) == LastRecordBefore(b, k, n)
  {
    if n > 0 {
      assert a[n - 1] == b[n - 1];
      LastRecordBeforeAgree(a, b, k, n - 1);
    }
  }

  /** The value the last line setting `k` gives it, or `fallback` when no line does. */
  function LastValueOr(lines: seq<string>, k: Key, fallback: string): string {
    match LastRecordIndex(lines, k)
    case None => fallback
    case Some(i) => RecordValue(lines[i], k)
  }

  predicate AnyBadLine(lines: seq<string>) {
    exists i :: 0 <= i < |lines| && Count(lines[i], ':') >= 2
  }

  // ---------------------------------------------------------------------
  // Properties
  // ---------------------------------------------------------------------

  /** Two configurations agreeing on every key are equal. */
  lemma ConfigExt(a: Config, b: Config)
    requires forall k :: a.Get(k) == b.Get(k)
    ensures a == b
  {
    assert a.Get(TranscoderKey) == b.Get(TranscoderKey);
    assert a.Get(PresetKey) == b.Get(PresetKey);
    assert a.Get(BitrateKey) == b.Get(BitrateKey);
  }

  /**
   * Loading fails exactly when some line holds two or more colons; otherwise
   * each key holds the value of the last line that sets it, or its value in
   * `base` when no line does. Lines without a colon and unknown keys are ignored.
   */
  lemma {:induction false} LoadLinesMeaning(base: Config, lines: seq<string>)
    ensures LoadLines(base, lines).Failure? <==> AnyBadLine(lines)
    ensures LoadLines(base, lines).Success? ==>
      forall k :: LoadLines(base, lines).value.Get(k) == LastValueOr(lines, k, base.Get(k))
    decreases |lines|
  {
    if |lines| > 0 {
      var p := lines[..|lines| - 1];
      var line := lines[|lines| - 1];
      assert lines == p + [line];
      LoadLinesMeaning(base, p);
      AnyBadLineSnoc(p, line);
      if LoadLines(base, p).Success? {
        var c := LoadLines(base, p).value;
        LoadLineOutcome(c, line);
        forall k
          ensures LastValueOr(lines, k, base.Get(k))
            == if IsRecordFor(line, k) then RecordValue(line, k) else LastValueOr(p, k, base.Get(k))
        {
          LastValueSnoc(p, line, k, base.Get(k));
        }
      }
    }
  }

  /** A line appended to a file is bad exactly when it holds two or more colons. */
  lemma AnyBadLineSnoc(p: seq<string>, line: string)
    ensures AnyBadLine(p + [line]) <==> AnyBadLine(p) || Count(line, ':') >= 2
  {
    var lines := p + [line];
    assert forall i :: 0 <= i < |p| ==> lines[i] == p[i];
    assert lines[|p|] == line;
  }

  /** A line appended to a file decides the value of the key it sets and leaves the others to the earlier lines. */
  lemma LastValueSnoc(p: seq<string>, line: string, k: Key, fallback: string)
    ensures LastValueOr(p + [line], k, fallback)
      == if IsRecordFor(line, k) then RecordValue(line, k) else LastValueOr(p, k, fallback)
  {
    var lines := p + [line];
    assert lines[|p|] == line;
    if !IsRecordFor(line, k) {
      assert forall i :: 0 <= i < |p| ==> lines[i] == p[i];
      LastRecordBeforeAgree(lines, p, k, |p|);
      SameLastValue(lines, p, k, fallback);
    }
  }

  /** Two files whose last records for `k` sit at the same position of equal lines give `k` the same value. */
  lemma SameLastValue(a: seq<string>, b: seq<string>, k: Key, fallback: string)
    requires |b| < |a| && !IsRecordFor(a[|b|], k) && |a| == |b| + 1
    requires forall i :: 0 <= i < |b| ==> a[i] == b[i]
    requires LastRecordBefore(a, k, |b|) == LastRecordIndex(b, k)
    ensures LastValueOr(a, k, fallback) == LastValueOr(b, k, fallback)
  {
    assert LastRecordIndex(a, k) == LastRecordBefore(a, k, |b|);
    match LastRecordIndex(b, k)
    case None =>
    case Some(i) =>
      assert a[i] == b[i];
  }

  /** One line fails exactly when it holds two or more colons, and otherwise sets just the key it records. */
  lemma LoadLineOutcome(c: Config, line: string)
    ensures LoadLine(c, line).Failure? <==> Count(line, ':') >= 2
    ensures LoadLine(c, line).Success? ==>
      forall k :: LoadLine(c, line).value.Get(k) == if IsRecordFor(line, k) then RecordValue(line, k) else c.Get(k)
  {
    LoadLineFailsIff(c, line);
    if forall k :: !IsRecordFor(line, k) {
      if Count(line, ':') < 2 {
        LoadLineIgnores(c, line);
      }
    } else {
      var k :| IsRecordFor(line, k);
      LoadLineSets(c, line, k);
      forall k' | IsRecordFor(line, k')
        ensures k' == k
      {
        RecordKeyUnique(line, k, k');
      }
    }
  }

  /** Every value loaded from a file is free of colons and line breaks. */
  lemma LoadedIsClean(base: Config, file: Option<string>)
    requires Clean(base)
    requires LoadFrom(base, file).Success?
    ensures Clean(LoadFrom(base, file).value)
  {
    if file.Some? {
      var lines := Split(file.value, '\n');
      LoadLinesMeaning(base, lines);
      SplitFreeOf(file.value, '\n');
      forall k
        ensures ':' !in LoadFrom(base, file).value.Get(k) && '\n' !in LoadFrom(base, file).value.Get(k)
      {
        match LastRecordIndex(lines, k)
        case None =>
        case Some(i) =>
          assert '\n' !in lines[i];
          assert RecordValue(lines[i], k) == lines[i][|KeyName(k)| + 1..];
      }
    }
  }

  /**
   * Reading the same file again over the configuration it produced gives the
   * same configuration: the script's in-place update of its defaults does not
   * change what a later load of an unchanged file returns.
   */
  lemma LoadTwiceIdempotent(base: Config, file: Option<string>)
    requires LoadFrom(base, file).Success?
    ensures LoadFrom(LoadFrom(base, file).value, file) == LoadFrom(base, file)
  {
    if file.Some? {
      var lines := Split(file.value, '\n');
      var once := LoadFrom(base, file).value;
      LoadLinesMeaning(base, lines);
      LoadLinesMeaning(once, lines);
      ConfigExt(LoadFrom(once, file).value, once);
    }
  }

  /** The records `save_config` writes, in order. */
  function Records(c: Config, order: seq<Key>): (r: seq<string>)
    ensures |r| == |order|
    ensures forall i :: 0 <= i < |order| ==> r[i] == Record(c, order[i])
  {
    seq(|order|, i requires 0 <= i < |order| => Record(c, order[i]))
  }

  /** What `save_config` writes is its records, each followed by a line break. */
  lemma {:induction false} SaveTextLines(c: Config, order: seq<Key>)
    ensures SaveText(c, order) == Join(Records(c, order) + [""], '\n')
    decreases |order|
  {
    if |order| > 0 {
      SaveTextLines(c, order[1..]);
      var lines := Records(c, order) + [""];
      RecordsCons(c, order);
      JoinCons(lines, '\n');
    }
  }

  /** The lines of a non-empty order are its first record followed by the lines of the rest. */
  lemma RecordsCons(c: Config, order: seq<Key>)
    requires |order| > 0
    ensures (Records(c, order) + [""])[0] == Record(c, order[0])
    ensures (Records(c, order) + [""])[1..] == Records(c, order[1..]) + [""]
  {
    var a, b := Records(c, order) + [""], Records(c, order[1..]) + [""];
    assert |a[1..]| == |b|;
    forall i | 0 <= i < |b|
      ensures a[1..][i] == b[i]
    {
      if i < |order| - 1 {
        assert order[1..][i] == order[i + 1];
      }
    }
  }

  /** A record of a clean configuration holds one colon, no line break, and sets exactly its own key. */
  lemma RecordShape(c: Config, k: Key)
    requires Clean(c)
    ensures Count(Record(c, k), ':') == 1
    ensures '\n' !in Record(c, k)
    ensures forall k' :: IsRecordFor(Record(c, k), k') <==> k' == k
    ensures IsRecordFor(Record(c, k), k) && RecordValue(Record(c, k), k) == c.Get(k)
  {
    assert ':' !in KeyName(k) && '\n' !in KeyName(k);
    SplitOnce(KeyName(k), c.Get(k), ':');
    SplitCount(Record(c, k), ':');
    forall k'
      ensures IsRecordFor(Record(c, k), k') <==> k' == k
    {
      RecordForIff(KeyName(k), c.Get(k), k');
    }
    RecordForIff(KeyName(k), c.Get(k), k);
  }

  /** The text `save_config` writes splits into its records and a final empty line. */
  lemma SavedLines(c: Config, order: seq<Key>)
    requires Clean(c)
    ensures Split(SaveText(c, order), '\n') == Records(c, order) + [""]
  {
    var lines := Records(c, order) + [""];
    SaveTextLines(c, order);
    forall i | 0 <= i < |lines|
      ensures '\n' !in lines[i]
    {
      if i < |order| {
        RecordShape(c, order[i]);
      }
    }
    SplitJoin(lines, '\n');
  }

  /** Reading the saved records over any configuration gives the saved configuration. */
  lemma LoadRecords(base: Config, c: Config, order: seq<Key>)
    requires Clean(c)
    requires IsKeyOrder(order)
    ensures LoadLines(base, Records(c, order) + [""]) == Success(c)
  {
    var lines := Records(c, order) + [""];
    LoadLinesMeaning(base, lines);
    forall i | 0 <= i < |lines|
      ensures Count(lines[i], ':') < 2
    {
      if i < |order| {
        RecordShape(c, order[i]);
      }
    }
    var r := LoadLines(base, lines).value;
    forall k
      ensures r.Get(k) == c.Get(k)
    {
      var j :| 0 <= j < |order| && order[j] == k;
      RecordShape(c, k);
      assert IsRecordFor(lines[j], k);
      assert lines[|order|] == "";
      NoColonNoRecord(lines[|order|], k);
      var i := LastRecordIndex(lines, k).value;
      RecordShape(c, order[i]);
    }
    ConfigExt(r, c);
  }

  /**
   * Reading back what `save_config` wrote gives the saved configuration,
   * whatever the configuration read before, provided no value holds a colon
   * or a line break.
   */
  lemma SaveLoadRoundTrip(base: Config, c: Config, order: seq<Key>)
    requires Clean(c)
    requires IsKeyOrder(order)
    ensures LoadFrom(base, Some(SaveText(c, order))) == Success(c)
  {
    SavedLines(c, order);
    LoadRecords(base, c, order);
  }

  /** In an order listing each key once, `k` sits at one position and no other. */
  lemma KeyIndex(order: seq<Key>, k: Key) returns (j: nat)
    requires IsKeyOrder(order)
    ensures j < |order| && order[j] == k
    ensures forall i :: 0 <= i < |order| && i != j ==> order[i] != k
  {
    var it :| 0 <= it < |order| && order[it] == TranscoderKey;
    var ip :| 0 <= ip < |order| && order[ip] == PresetKey;
    var ib :| 0 <= ib < |order| && order[ib] == BitrateKey;
    j := if k == TranscoderKey then it else if k == PresetKey then ip else ib;
  }

  /** A colon-free line anywhere in the file changes nothing. */
  lemma {:induction false} LoadLinesSkipPlain(base: Config, a: seq<string>, y: string, b: seq<string>)
    requires ':' !in y
    ensures LoadLines(base, a + [y] + b) == LoadLines(base, a + b)
    decreases |b|
  {
    if |b| == 0 {
      assert a + [y] + b == a + [y];
      assert (a + [y])[..|a|] == a;
      assert a + b == a;
    } else {
      var b' := b[..|b| - 1];
      var line := b[|b| - 1];
      LoadLinesSkipPlain(base, a, y, b');
      assert (a + [y] + b)[..|a + [y] + b| - 1] == a + [y] + b';
      assert (a + b)[..|a + b| - 1] == a + b';
      assert (a + [y] + b)[|a + [y] + b| - 1] == line;
      assert (a + b)[|a + b| - 1] == line;
    }
  }

  /**
   * A value holding a line break is cut at it: when the text after the
   * break is colon- and line-break-free, the saved settings read back as if
   * only the text before the break had been stored.
   */
  lemma BrokenValueCut(base: Config, c: Config, k: Key, y: string, order: seq<Key>)
    requires IsKeyOrder(order)
    requires Clean(c)
    requires ':' !in y && '\n' !in y
    ensures LoadFrom(base, Some(SaveText(c.Set(k, c.Get(k) + "\n" + y), order)))
      == LoadFrom(base, Some(SaveText(c, order)))
  {
    var broken := c.Set(k, c.Get(k) + "\n" + y);
    var parts := Records(c, order) + [""];
    var j := KeyIndex(order, k);
    SavedLines(c, order);
    SplitFreeOf(SaveText(c, order), '\n');
    RecordsExtended(c, k, y, order, j);
    SaveTextLines(broken, order);
    SplitSpliced(parts, j, y, '\n');
    LoadLinesSkipPlain(base, parts[..j + 1], y, parts[j + 1..]);
    assert parts[..j + 1] + parts[j + 1..] == parts;
  }

  /** Extending the value of the key at position `j` extends that record and no other. */
  lemma RecordsExtended(c: Config, k: Key, y: string, order: seq<Key>, j: nat)
    requires j < |order| && order[j] == k
    requires forall i :: 0 <= i < |order| && i != j ==> order[i] != k
    ensures Records(c.Set(k, c.Get(k) + "\n" + y), order) + [""]
      == (Records(c, order) + [""])[j := Record(c, k) + "\n" + y]
  {
    var broken := c.Set(k, c.Get(k) + "\n" + y);
    var a, b := Records(broken, order) + [""], (Records(c, order) + [""])[j := Record(c, k) + "\n" + y];
    assert |a| == |b|;
    forall i | 0 <= i < |a|
      ensures a[i] == b[i]
    {
      if i == j {
        assert a[i] == KeyName(k) + ":" + (c.Get(k) + "\n" + y);
      } else if i < |order| {
        assert order[i] != k;
        assert broken.Get(order[i]) == c.Get(order[i]);
      }
    }
  }

  /** A missing or unreadable file yields exactly the defaults. */
  lemma MissingFileGivesDefaults()
    ensures Load(None) == Success(Config("ffmpeg", "ultrafast", "2000k"))
    ensures Clean(Defaults)
  {
    forall k
      ensures ':' !in Defaults.Get(k) && '\n' !in Defaults.Get(k)
    {
      match k
      case TranscoderKey => assert Defaults.Get(k) == "ffmpeg";
      case PresetKey => assert Defaults.Get(k) == "ultrafast";
      case BitrateKey => assert Defaults.Get(k) == "2000k";
    }
  }
}
