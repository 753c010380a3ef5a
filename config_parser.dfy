/** The configuration of the task manager: a text of `name { key = value }`
    blocks read line by line into a record seeded with defaults
    (src/config_parser.rs). The file itself is read elsewhere: the parser
    receives its lines. */
module ConfigParser {
  import opened Results
  import opened Text

  datatype Ui = Ui(colors: bool, compact: bool)

  datatype DateSettings = DateSettings(format: string, warnDaysBefore: I32)

  datatype Config = Config(ui: Ui, date: DateSettings)

  /** The values every key has until the file sets it. */
  const Defaults: Config := Config(Ui(true, false), DateSettings("%d/%m/%y", 1))

  /** What can go wrong while reading the file; each variant keeps the data
      its message shows. */
  datatype ConfigError =
    | InvalidLine(line: nat)       // a line that is neither blank, a brace nor `key = value`
    | BadBool(raw: string)         // a boolean setting other than `true` or `false`
    | BadDateFormat(raw: string)   // a date template with a token other than d, m or y
    | BadInt(raw: string)          // a `warn_days_before` that is no 32-bit integer

  /** `parse_bool`: only the two literals are booleans. */
  function ParseBool(raw: string): (r: Result<bool, ConfigError>)
    ensures r == Ok(true) <==> raw == "true"
    ensures r == Ok(false) <==> raw == "false"
    ensures r.Err? <==> raw != "true" && raw != "false"
    ensures r.Err? ==> r.error == BadBool(raw)
  {
    match raw
    case "true" => Ok(true)
    case "false" => Ok(false)
    case _ => Err(BadBool(raw))
  }

  /** The tokens of the date-template language. */
  predicate IsToken(t: string)
  {
    t == "d" || t == "m" || t == "y"
  }

  /** The strftime specifier a token stands for: day and month as numbers,
      the year with four digits. */
  function Specifier(t: string): (f: string)
    requires IsToken(t)
    ensures |f| == 2 && f[0] == '%' && '/' !in f && 'y' !in f
    ensures f == "%Y" <==> t == "y"
    ensures t != "y" ==> f[1] == t[0]
  {
    if t == "y" then "%Y"
    else
      assert ("%" + t)[1] == t[0] != 'Y';
      "%" + t
  }

  function Specifiers(ts: seq<string>): (fs: seq<string>)
    requires forall i :: 0 <= i < |ts| ==> IsToken(ts[i])
    ensures |fs| == |ts|
    ensures forall i :: 0 <= i < |ts| ==> fs[i] == Specifier(ts[i])
  {
    seq(|ts|, i requires 0 <= i < |ts| && IsToken(ts[i]) => Specifier(ts[i]))
  }

  /** The terminated specifiers of one more token. */
  lemma SpecifiersSnoc(ts: seq<string>, i: nat)
    requires i < |ts|
    requires forall k :: 0 <= k <= i ==> IsToken(ts[k])
    ensures Terminated(Specifiers(ts[..i + 1]), '/') ==
            Terminated(Specifiers(ts[..i]), '/') + Specifier(ts[i]) + "/"
  {
    assert Specifiers(ts[..i + 1])[..i] == Specifiers(ts[..i]);
  }

  /** What `parse_date` computes: the `/`-separated tokens of the template
      each replaced by its specifier, or an error naming the template. */
  function CompileTemplate(raw: string): (r: Result<string, ConfigError>)
    ensures r.Err? ==> r.error == BadDateFormat(raw)
  {
    var tokens := Split(raw, '/');
    if forall i :: 0 <= i < |tokens| ==> IsToken(tokens[i])
    then Ok(Join(Specifiers(tokens), '/'))
    else Err(BadDateFormat(raw))
  }

  /** A template with a token that is not `d`, `m` or `y` is refused. */
  lemma CompileRejects(raw: string, i: nat)
    requires i < |Split(raw, '/')| && !IsToken(Split(raw, '/')[i])
    ensures CompileTemplate(raw) == Err(BadDateFormat(raw))
  {
  }

  /** A template of valid tokens compiles to their terminated specifiers
      without the last `/`. */
  lemma CompileAccepts(raw: string, terminated: string)
    requires forall k :: 0 <= k < |Split(raw, '/')| ==> IsToken(Split(raw, '/')[k])
    requires terminated == Terminated(Specifiers(Split(raw, '/')), '/')
    ensures |terminated| >= 1
    ensures CompileTemplate(raw) == Ok(terminated[..|terminated| - 1])
  {
    JoinTerminated(Specifiers(Split(raw, '/')), '/');
  }

  /** The text the loop of `parse_date` appends for a token is its
      specifier and a `/`. */
  lemma AppendedSpecifier(acc: string, t: string)
    requires IsToken(t)
    ensures (if t == "y" then acc + "%Y/" else acc + "%" + t + "/") == acc + Specifier(t) + "/"
  {
  }

  /** `parse_date`: appends each token's specifier and a `/`, then pops the
      final `/`. */
  method ParseDate(raw: string) returns (r: Result<string, ConfigError>)
    ensures r == CompileTemplate(raw)
  {
    var tokens := Split(raw, '/');
    var result := "";
    var i := 0;
    while i < |tokens|
      invariant 0 <= i <= |tokens|
      invariant forall k :: 0 <= k < i ==> IsToken(tokens[k])
      invariant result == Terminated(Specifiers(tokens[..i]), '/')
    {
      var pos := tokens[i];
      if !IsToken(pos) {
        CompileRejects(raw, i);
        return Err(BadDateFormat(raw));
      }
      ghost var before := result;
      if pos == "y" {
        result := result + "%Y/";
      } else {
        result := result + "%" + pos + "/";
      }
      AppendedSpecifier(before, pos);
      SpecifiersSnoc(tokens, i);
      i := i + 1;
    }
    assert tokens[..i] == tokens;
    CompileAccepts(raw, result);
    result := result[..|result| - 1];
    r := Ok(result);
  }

  /** The block name that stands for "outside any block". */
  const NoBlock: string := "_NONE_"

  /** The parser's state between two lines: the open block and the settings
      read so far. */
  datatype ParseState = ParseState(block: string, config: Config)

  /** A line as the parser compares it: lower-cased, then trimmed. */
  function Norm(raw: string): string
  {
    Trim(Lower(raw))
  }

  /** The name a block-opening line gives its block: the line without its
      braces, trimmed. */
  function BlockName(line: string): string
  {
    Trim(Remove(line, '{'))
  }

  /** The keys the parser knows, per block. */
  predicate KnownKey(block: string, key: string)
  {
    (block == "ui" && (key == "colors" || key == "compact")) ||
    (block == "date" && (key == "format" || key == "warn_days_before"))
  }

  /** The effect of `param = value` inside `block`: a recognised key is parsed
      and stored, anything else leaves the settings as they are. */
  function Assign(block: string, param: string, value: string, cfg: Config): (r: Result<Config, ConfigError>)
    ensures !KnownKey(block, param) ==> r == Ok(cfg)
    ensures r.Err? ==> !r.error.InvalidLine?
  {
    if block == "ui" then
      if param == "colors" then
        match ParseBool(value)
        case Err(e) => Err(e)
        case Ok(b) => Ok(cfg.(ui := cfg.ui.(colors := b)))
      else if param == "compact" then
        match ParseBool(value)
        case Err(e) => Err(e)
        case Ok(b) => Ok(cfg.(ui := cfg.ui.(compact := b)))
      else Ok(cfg)
    else if block == "date" then
      if param == "format" then
        match CompileTemplate(value)
        case Err(e) => Err(e)
        case Ok(f) => Ok(cfg.(date := cfg.date.(format := f)))
      else if param == "warn_days_before" then
        match ParseI32(value)
        case None => Err(BadInt(value))
        case Some(n) => Ok(cfg.(date := cfg.date.(warnDaysBefore := n)))
      else Ok(cfg)
    else Ok(cfg)
  }

  /** The ways the parser reads a normalised line. */
  datatype LineKind =
    | Blank
    | Opener(name: string)
    | Closer
    | Setting(key: string, value: string)
    | NoEquals

  /** How a normalised line is read while `block` is open: the tests of the
      loop body, in their order. */
  function Classify(block: string, line: string): LineKind
  {
    if line == [] then Blank
    else if block == NoBlock && EndsWith(line, "{") then Opener(BlockName(line))
    else if line == "}" then Closer
    else
      // the first piece of the split always exists; the second only when
      // the line has an `=`
      var parts := Split(line, '=');
      if |parts| < 2 then NoEquals else Setting(Trim(parts[0]), Trim(parts[1]))
  }

  /** What reading a line of kind `kind` as line `n` does to state `st`. */
  function Apply(st: ParseState, kind: LineKind, n: nat): Result<ParseState, ConfigError>
  {
    match kind
    case Blank => Ok(st)
    case Opener(name) => Ok(st.(block := name))
    case Closer => Ok(st.(block := NoBlock))
    case NoEquals => Err(InvalidLine(n))
    case Setting(key, value) =>
      match Assign(st.block, key, value, st.config)
      case Err(e) => Err(e)
      case Ok(cfg) => Ok(st.(config := cfg))
  }

  /** One iteration of the line loop: line `n` (counted from 1), already
      normalised, read in state `st`. */
  function Step(st: ParseState, line: string, n: nat): Result<ParseState, ConfigError>
  {
    Apply(st, Classify(st.block, line), n)
  }

  /** The remaining normalised `lines` read from state `st`, after `n` lines
      were read. */
  function Run(st: ParseState, lines: seq<string>, n: nat): Result<Config, ConfigError>
    decreases |lines|
  {
    if lines == [] then Ok(st.config)
    else
      match Step(st, lines[0], n + 1)
      case Err(e) => Err(e)
      case Ok(st') => Run(st', lines[1..], n + 1)
  }

  /** Reading a non-empty rest of the file: its first line, then the others. */
  lemma RunCons(st: ParseState, lines: seq<string>, i: nat)
    requires i < |lines|
    ensures Run(st, lines[i..], i) ==
              match Step(st, lines[i], i + 1)
              case Err(e) => Err(e)
              case Ok(st') => Run(st', lines[i + 1..], i + 1)
  {
    assert lines[i..][0] == lines[i] && lines[i..][1..] == lines[i + 1..];
  }

  const Initial: ParseState := ParseState(NoBlock, Defaults)

  /** Every line of the file normalised. */
  function NormLines(lines: seq<string>): (r: seq<string>)
    ensures |r| == |lines|
  {
    seq(|lines|, i requires 0 <= i < |lines| => Norm(lines[i]))
  }

  /** What `parse_config` computes from the lines of the file: each line is
      lower-cased and trimmed before it is looked at. */
  function ParseConfigSpec(lines: seq<string>): Result<Config, ConfigError>
  {
    Run(Initial, NormLines(lines), 0)
  }

  /** `parse_config`: the loop over the lines of the file, with the open block,
      the line counter and the settings as its variables. */
  method ParseConfig(lines: seq<string>) returns (r: Result<Config, ConfigError>)
    ensures r == ParseConfigSpec(lines)
  {
    var currentBlock := NoBlock;
    var lineCounter := 0;
    var config := Defaults;
    var i := 0;
    while i < |lines|
      invariant 0 <= i <= |lines| && lineCounter == i
      invariant Run(ParseState(currentBlock, config), NormLines(lines)[i..], lineCounter) == ParseConfigSpec(lines)
    {
      ghost var before := ParseState(currentBlock, config);
      RunCons(before, NormLines(lines), i);
      lineCounter := lineCounter + 1;
      var line := Trim(Lower(lines[i]));
      assert line == NormLines(lines)[i];
      i := i + 1;
      if line == [] {
        // a blank line is skipped
        assert Classify(before.block, line) == Blank;
      } else if currentBlock == NoBlock && EndsWith(line, "{") {
        currentBlock := Trim(Remove(line, '{'));
        assert Classify(before.block, line) == Opener(currentBlock);
      } else if line == "}" {
        currentBlock := NoBlock;
        assert Classify(before.block, line) == Closer;
      } else {
        var parts := Split(line, '=');
        if |parts| < 2 {
          assert Classify(before.block, line) == NoEquals;
          return Err(InvalidLine(lineCounter));
        }
        var param := Trim(parts[0]);
        var value := Trim(parts[1]);
        assert Classify(before.block, line) == Setting(param, value);
        assert Step(before, line, lineCounter) ==
               match Assign(before.block, param, value, before.config)
               case Err(e) => Err(e)
               case Ok(cfg) => Ok(before.(config := cfg));
        var effect := ApplySetting(currentBlock, param, value, config);
        if effect.Err? {
          return Err(effect.error);
        }
        config := effect.value;
      }
    }
    r := Ok(config);
  }

  /** The dispatch on block and key inside the line loop: a recognised key
      has its value parsed and stored, any other setting is ignored. */
  method ApplySetting(block: string, param: string, value: string, config: Config)
    returns (r: Result<Config, ConfigError>)
    ensures r == Assign(block, param, value, config)
  {
    r := Ok(config);
    if block == "ui" {
      if param == "colors" {
        var b := ParseBool(value);
        if b.Err? {
          return Err(b.error);
        }
        r := Ok(config.(ui := config.ui.(colors := b.value)));
      } else if param == "compact" {
        var b := ParseBool(value);
        if b.Err? {
          return Err(b.error);
        }
        r := Ok(config.(ui := config.ui.(compact := b.value)));
      }
    } else if block == "date" {
      if param == "format" {
        var f := ParseDate(value);
        if f.Err? {
          return Err(f.error);
        }
        r := Ok(config.(date := config.date.(format := f.value)));
      } else if param == "warn_days_before" {
        var w := ParseI32(value);
        if w.None? {
          return Err(BadInt(value));
        }
        r := Ok(config.(date := config.date.(warnDaysBefore := w.value)));
      }
    }
  }
}
