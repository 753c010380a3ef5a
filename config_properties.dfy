/** What the configuration parser promises: defaults, how blocks open and
    close, which lines are ignored, line-numbered errors, last assignment
    wins, case-insensitivity, and the date-template language. */
module ConfigProperties {
  import opened Results
  import opened Text
  import opened ConfigParser

  // ---------------------------------------------------------------------
  // The date-template language

  predicate AllTokens(ts: seq<string>)
  {
    forall i :: 0 <= i < |ts| ==> IsToken(ts[i])
  }

  /** A template the compiler accepts, character by character: `d`, `m` or
      `y` at even positions, `/` at odd ones, and an odd length. */
  predicate WellFormedTemplate(raw: string)
  {
    |raw| % 2 == 1 &&
    forall i :: 0 <= i < |raw| ==> if i % 2 == 0 then raw[i] in "dmy" else raw[i] == '/'
  }

  lemma WellFormedCons(raw: string)
    requires |raw| >= 2
    ensures WellFormedTemplate(raw) <==>
              raw[0] in "dmy" && raw[1] == '/' && WellFormedTemplate(raw[2..])
  {
    var tail := raw[2..];
    if raw[0] in "dmy" && raw[1] == '/' && WellFormedTemplate(tail) {
      forall i | 0 <= i < |raw|
        ensures if i % 2 == 0 then raw[i] in "dmy" else raw[i] == '/'
      {
        if i >= 2 { assert raw[i] == tail[i - 2]; }
      }
    }
    if WellFormedTemplate(raw) {
      forall i | 0 <= i < |tail|
        ensures if i % 2 == 0 then tail[i] in "dmy" else tail[i] == '/'
      {
        assert tail[i] == raw[i + 2];
      }
    }
  }

  /** The tokens of a template are all valid exactly when the template is
      well formed. */
  lemma {:induction false} TokensIff(raw: string)
    ensures AllTokens(Split(raw, '/')) <==> WellFormedTemplate(raw)
    decreases |raw|
  {
    var ts := Split(raw, '/');
    if raw == [] {
      assert !IsToken(ts[0]);
    } else if raw[0] == '/' {
      assert ts[0] == "";
    } else if |raw| == 1 {
      assert raw[1..] == [];
      assert ts == [[raw[0]] + ""];
    } else if raw[1] == '/' {
      assert raw == [raw[0]] + ['/'] + raw[2..];
      SplitAfter([raw[0]], raw[2..], '/');
      TokensIff(raw[2..]);
      WellFormedCons(raw);
      var rest := Split(raw[2..], '/');
      assert ts == [[raw[0]]] + rest;
      if AllTokens(rest) && raw[0] in "dmy" {
        forall i | 0 <= i < |ts| ensures IsToken(ts[i]) {
          if i > 0 { assert ts[i] == rest[i - 1]; }
        }
      }
      if AllTokens(ts) {
        forall i | 0 <= i < |rest| ensures IsToken(rest[i]) {
          assert rest[i] == ts[i + 1];
        }
      }
    } else {
      var rest := Split(raw[1..], '/');
      assert rest[0][0] == raw[1];
      assert |ts[0]| >= 2;
    }
  }

  /** `parse_date` accepts exactly the well-formed templates: one or more of
      `d`, `m`, `y` separated by single slashes. */
  lemma TemplateAcceptedIff(raw: string)
    ensures CompileTemplate(raw).Ok? <==> WellFormedTemplate(raw)
  {
    TokensIff(raw);
  }

  /** An empty template, an empty token and a token with white space around it
      are all refused, and the error names the template as written. */
  lemma TemplateRejectsMalformed(raw: string)
    requires raw == [] ||
             (exists i :: 0 <= i < |raw| && IsSpace(raw[i])) ||
             (exists i :: 0 <= i < |raw| - 1 && raw[i] == '/' && raw[i + 1] == '/')
    ensures CompileTemplate(raw) == Err(BadDateFormat(raw))
  {
    TemplateAcceptedIff(raw);
    if exists i :: 0 <= i < |raw| && IsSpace(raw[i]) {
      var i :| 0 <= i < |raw| && IsSpace(raw[i]);
      SpaceIsMalformed(raw, i);
    } else if raw != [] {
      var i :| 0 <= i < |raw| - 1 && raw[i] == '/' && raw[i + 1] == '/';
      DoubleSlashIsMalformed(raw, i);
    }
  }

  lemma SpaceIsMalformed(raw: string, i: nat)
    requires i < |raw| && IsSpace(raw[i])
    ensures !WellFormedTemplate(raw)
  {
    assert !(raw[i] in "dmy") && raw[i] != '/';
  }

  lemma DoubleSlashIsMalformed(raw: string, i: nat)
    requires i + 1 < |raw| && raw[i] == '/' && raw[i + 1] == '/'
    ensures !WellFormedTemplate(raw)
  {
    assert i % 2 == 0 || (i + 1) % 2 == 0;
  }

  /** Compiling `n` valid tokens keeps their order: the result splits on `/`
      into the tokens' specifiers, has `n - 1` slashes and `3n - 1` characters. */
  lemma TemplateShape(raw: string, f: string)
    requires CompileTemplate(raw) == Ok(f)
    ensures var n := |Split(raw, '/')|;
            Split(f, '/') == Specifiers(Split(raw, '/')) &&
            Count(f, '/') == n - 1 &&
            |f| == 3 * n - 1
  {
    var ts := Split(raw, '/');
    assert AllTokens(ts);
    var fs := Specifiers(ts);
    assert f == Join(fs, '/');
    SpecifierPieces(ts);
    JoinedSpecifiersSplit(fs);
    JoinedSpecifiersLength(fs);
  }

  lemma SpecifierPieces(ts: seq<string>)
    requires AllTokens(ts)
    ensures forall i :: 0 <= i < |ts| ==> '/' !in Specifiers(ts)[i] && |Specifiers(ts)[i]| == 2
  {
  }

  lemma JoinedSpecifiersSplit(fs: seq<string>)
    requires |fs| >= 1
    requires forall i :: 0 <= i < |fs| ==> '/' !in fs[i]
    ensures Split(Join(fs, '/'), '/') == fs
    ensures Count(Join(fs, '/'), '/') == |fs| - 1
  {
    SplitJoin(fs, '/');
  }

  lemma JoinedSpecifiersLength(fs: seq<string>)
    requires |fs| >= 1
    requires forall i :: 0 <= i < |fs| ==> |fs[i]| == 2
    ensures |Join(fs, '/')| == 3 * |fs| - 1
  {
    JoinLength(fs, '/', 2);
    var n := |fs|;
    assert n * (2 + 1) == 3 * n;
  }

  /** Any non-empty sequence of tokens, repetitions included, joined with `/`
      compiles to their specifiers joined with `/`. */
  lemma TemplateOfTokens(ts: seq<string>)
    requires |ts| >= 1 && AllTokens(ts)
    ensures CompileTemplate(Join(ts, '/')) == Ok(Join(Specifiers(ts), '/'))
  {
    SplitJoin(ts, '/');
  }

  /** No template yields the two-digit year `%y`, so the default format
      "%d/%m/%y" is one that no `date.format` setting can produce. */
  lemma CompiledYearHasFourDigits(raw: string, f: string)
    requires CompileTemplate(raw) == Ok(f)
    ensures 'y' !in f
    ensures f != Defaults.date.format
  {
    JoinAvoids(Specifiers(Split(raw, '/')), '/', 'y');
    assert Defaults.date.format[7] == 'y';
  }

  /** The template `d/m/y` gives day, month and the four-digit year, in that order. */
  lemma DayMonthYear(raw: string)
    requires raw == "d/m/y"
    ensures CompileTemplate(raw) == Ok("%d/%m/%Y")
  {
    var ts := ["d", "m", "y"];
    JoinedThree("d", "m", "y");
    assert "d" + "/" + "m" + "/" + "y" == raw;
    TemplateOfTokens(ts);
    SpecifiersDayMonthYear();
    JoinedThree("%d", "%m", "%Y");
    FormatSpelled();
  }

  lemma FormatSpelled()
    ensures "%d" + "/" + "%m" + "/" + "%Y" == "%d/%m/%Y"
  {
  }

  lemma JoinedThree(a: string, b: string, c: string)
    ensures Join([a, b, c], '/') == a + "/" + b + "/" + c
  {
    assert [a, b, c][1..] == [b, c] && [b, c][1..] == [c];
    assert Join([c], '/') == c;
    assert Join([b, c], '/') == b + "/" + c;
  }

  lemma SpecifiersDayMonthYear()
    ensures Specifiers(["d", "m", "y"]) == ["%d", "%m", "%Y"]
  {
    assert Specifier("d") == "%d" && Specifier("m") == "%m" && Specifier("y") == "%Y";
  }

  // ---------------------------------------------------------------------
  // One line

  /** A line without upper-case letters, as every normalised line is. */
  predicate LowerCase(line: string)
  {
    forall i :: 0 <= i < |line| ==> !IsUpper(line[i])
  }

  /** A normalised line holds no upper-case letter. */
  lemma NormHasNoUpper(raw: string)
    ensures LowerCase(Norm(raw))
  {
    var s := Lower(raw);
    LowerChars(raw);
    var a, b := TrimIsSlice(s);
    assert forall i :: 0 <= i < |Norm(raw)| ==> Norm(raw)[i] == s[a + i];
  }

  /** Normalising a normalised line changes nothing more. */
  lemma NormIdempotent(raw: string)
    ensures Norm(Norm(raw)) == Norm(raw)
  {
    var t := Norm(raw);
    NormHasNoUpper(raw);
    LowerChars(t);
    assert Lower(t) == t;
    var a, b := TrimIsSlice(Lower(raw));
    TrimFixed(t);
  }

  /** A text with no white space at either end is its own trim. */
  lemma TrimFixed(t: string)
    requires t == [] || (!IsSpace(t[0]) && !IsSpace(t[|t| - 1]))
    ensures Trim(t) == t
  {
  }

  /** No lower-case line can name its block "_NONE_", so a block once opened
      is open until `}`. */
  lemma BlockNameIsNeverNoBlock(line: string)
    requires LowerCase(line)
    ensures BlockName(line) != NoBlock
  {
    var s := Remove(line, '{');
    var a, b := TrimIsSlice(s);
    if BlockName(line) == NoBlock {
      assert s[a..b][1] == 'N';
      assert s[a + 1] == 'N';
      RemoveKeeps(line, '{', a + 1);
    }
  }

  lemma {:induction false} RemoveKeeps(s: string, c: char, j: nat)
    requires j < |Remove(s, c)|
    ensures Remove(s, c)[j] in s
  {
    if s[0] == c {
      RemoveKeeps(s[1..], c, j);
    } else if j > 0 {
      RemoveKeeps(s[1..], c, j - 1);
    }
  }

  /** A line is read as "no `=`" exactly when none of the earlier tests
      matches and it has no `=`. */
  lemma ClassifyNoEqualsIff(block: string, line: string)
    ensures Classify(block, line) == NoEquals <==>
              line != [] && !(block == NoBlock && EndsWith(line, "{")) &&
              line != "}" && '=' !in line
  {
    if line != [] && !(block == NoBlock && EndsWith(line, "{")) && line != "}" {
      assert |Split(line, '=')| < 2 <==> Count(line, '=') == 0;
    }
  }

  /** The key a `key = value` line names. */
  function Key(line: string): string
  {
    Trim(Split(line, '=')[0])
  }

  /** The value a `key = value` line gives. */
  function Value(line: string): string
    requires '=' in line
  {
    var parts := Split(line, '=');
    assert Count(line, '=') >= 1;
    Trim(parts[1])
  }

  /** A line with `=` that is not an opener is a setting of its key to its
      value. */
  lemma ClassifySetting(block: string, line: string)
    requires '=' in line && !(block == NoBlock && EndsWith(line, "{"))
    ensures Classify(block, line) == Setting(Key(line), Value(line))
  {
    assert line != [] && line != "}";
    assert Count(line, '=') >= 1;
  }

  /** Outside a block, a line ending in `{` opens the block it names. */
  lemma StepOpensBlock(st: ParseState, line: string, n: nat)
    requires st.block == NoBlock && EndsWith(line, "{")
    ensures Step(st, line, n) == Ok(ParseState(BlockName(line), st.config))
  {
    assert Classify(st.block, line) == Opener(BlockName(line));
  }

  /** `}` closes whatever block is open, and closing outside a block is harmless. */
  lemma StepClosesBlock(st: ParseState, line: string, n: nat)
    requires line == "}"
    ensures Step(st, line, n) == Ok(ParseState(NoBlock, st.config))
  {
    assert !EndsWith(line, "{");
    assert Classify(st.block, line) == Closer;
  }

  /** Line `n` is rejected as invalid exactly when it is not blank, not a
      block opener in the current state, not `}`, and has no `=`; inside a
      block this includes a second opener. */
  lemma StepInvalidLineIff(st: ParseState, line: string, n: nat)
    ensures Step(st, line, n) == Err(InvalidLine(n)) <==>
              line != [] && !(st.block == NoBlock && EndsWith(line, "{")) &&
              line != "}" && '=' !in line
  {
    ClassifyNoEqualsIff(st.block, line);
  }

  /** A line that is not blank, not `}` and has no `=`. */
  predicate MissingEquals(line: string)
  {
    line != [] && line != "}" && '=' !in line
  }

  /** The only invalid-line error a line can raise names that line, and the
      line has no `=`. */
  lemma StepInvalidLine(st: ParseState, line: string, m: nat, j: nat)
    requires Step(st, line, m) == Err(InvalidLine(j))
    ensures j == m && MissingEquals(line)
  {
    var kind := Classify(st.block, line);
    assert kind == NoEquals;
    ClassifyNoEqualsIff(st.block, line);
  }

  /** A line with `=` that is not an opener sets its key to its value. */
  lemma StepSetting(st: ParseState, line: string, m: nat)
    requires '=' in line && !(st.block == NoBlock && EndsWith(line, "{"))
    ensures Step(st, line, m) == Apply(st, Setting(Key(line), Value(line)), m)
  {
    ClassifySetting(st.block, line);
  }

  /** A line with `=` that is not a block opener changes nothing when it is
      outside the `ui` and `date` blocks or names a key they do not know. */
  lemma StepIgnoresUnknown(st: ParseState, line: string, n: nat)
    requires '=' in line
    requires !(st.block == NoBlock && EndsWith(line, "{"))
    requires !KnownKey(st.block, Key(line))
    ensures Step(st, line, n) == Ok(st)
  {
    StepSetting(st, line, n);
    ApplyUnknown(st, Key(line), Value(line), n);
  }

  lemma ApplyUnknown(st: ParseState, key: string, value: string, n: nat)
    requires !KnownKey(st.block, key)
    ensures Apply(st, Setting(key, value), n) == Ok(st)
  {
    assert Assign(st.block, key, value, st.config) == Ok(st.config);
  }

  /** The value of a setting is the text between the first `=` and the second
      one (or the end of the line), trimmed; the rest is ignored. */
  lemma StepValueIsSecondField(st: ParseState, line: string, n: nat, k: string, v: string, rest: string)
    requires line == k + "=" + v + rest
    requires '=' !in k && '=' !in v && (rest == [] || rest[0] == '=')
    requires !(st.block == NoBlock && EndsWith(line, "{"))
    ensures Step(st, line, n) == Apply(st, Setting(Trim(k), Trim(v)), n)
  {
    SplitFirstTwo(k, v, rest);
    assert line[|k|] == '=';
    StepSetting(st, line, n);
  }

  /** The first two `=`-separated fields of `k=v` followed by nothing or by
      more `=`-fields are `k` and `v`. */
  lemma SplitFirstTwo(k: string, v: string, rest: string)
    requires '=' !in k && '=' !in v && (rest == [] || rest[0] == '=')
    ensures var parts := Split(k + "=" + v + rest, '=');
            |parts| >= 2 && parts[0] == k && parts[1] == v
  {
    var tail := v + rest;
    assert k + "=" + v + rest == k + ['='] + tail;
    SplitAfter(k, tail, '=');
    FirstField(v, rest);
  }

  /** A field followed by nothing or by a separator is the first piece. */
  lemma FirstField(v: string, rest: string)
    requires '=' !in v && (rest == [] || rest[0] == '=')
    ensures Split(v + rest, '=')[0] == v
  {
    if rest == [] {
      assert v + rest == v;
      SplitNone(v, '=');
    } else {
      assert v + rest == v + ['='] + rest[1..];
      SplitAfter(v, rest[1..], '=');
    }
  }

  /** A setting changes only the field its block and key name. */
  lemma AssignFrame(block: string, key: string, value: string, cfg: Config, cfg': Config)
    requires Assign(block, key, value, cfg) == Ok(cfg')
    ensures !(block == "ui" && key == "colors") ==> cfg'.ui.colors == cfg.ui.colors
    ensures !(block == "ui" && key == "compact") ==> cfg'.ui.compact == cfg.ui.compact
    ensures !(block == "date" && key == "format") ==> cfg'.date.format == cfg.date.format
    ensures !(block == "date" && key == "warn_days_before") ==>
              cfg'.date.warnDaysBefore == cfg.date.warnDaysBefore
    ensures !KnownKey(block, key) ==> cfg' == cfg
  {
  }

  /** A second setting of the same key replaces the first one whatever the first was. */
  lemma AssignOverrides(block: string, key: string, v1: string, v2: string, cfg: Config, cfg1: Config)
    requires Assign(block, key, v1, cfg) == Ok(cfg1)
    ensures Assign(block, key, v2, cfg1) == Assign(block, key, v2, cfg)
  {
  }

  /** `ui.colors` stores the boolean its value spells, and fails on any other value. */
  lemma AssignColors(value: string, cfg: Config)
    ensures Assign("ui", "colors", value, cfg).Ok? <==> ParseBool(value).Ok?
    ensures Assign("ui", "colors", value, cfg).Ok? ==>
              Assign("ui", "colors", value, cfg).value.ui.colors == (value == "true")
    ensures Assign("ui", "colors", value, cfg).Err? ==> Assign("ui", "colors", value, cfg).error == BadBool(value)
  {
  }

  /** `ui.compact` stores the boolean its value spells, and fails on any other value. */
  lemma AssignCompact(value: string, cfg: Config)
    ensures Assign("ui", "compact", value, cfg).Ok? <==> ParseBool(value).Ok?
    ensures Assign("ui", "compact", value, cfg).Ok? ==>
              Assign("ui", "compact", value, cfg).value.ui.compact == (value == "true")
    ensures Assign("ui", "compact", value, cfg).Err? ==> Assign("ui", "compact", value, cfg).error == BadBool(value)
  {
  }

  /** `date.format` stores the compiled template, and fails exactly on a
      malformed one. */
  lemma AssignFormat(value: string, cfg: Config)
    ensures Assign("date", "format", value, cfg).Ok? <==> WellFormedTemplate(value)
    ensures Assign("date", "format", value, cfg).Ok? ==>
              Assign("date", "format", value, cfg).value.date.format == CompileTemplate(value).value
    ensures Assign("date", "format", value, cfg).Err? ==>
              Assign("date", "format", value, cfg).error == BadDateFormat(value)
  {
    TemplateAcceptedIff(value);
  }

  /** `date.warn_days_before` stores the 32-bit integer its value spells, and
      fails on anything else. */
  lemma AssignWarnDays(value: string, cfg: Config)
    ensures Assign("date", "warn_days_before", value, cfg).Ok? <==> ParseI32(value).Some?
    ensures Assign("date", "warn_days_before", value, cfg).Ok? ==>
              Assign("date", "warn_days_before", value, cfg).value.date.warnDaysBefore == ParseI32(value).value
    ensures Assign("date", "warn_days_before", value, cfg).Err? ==>
              Assign("date", "warn_days_before", value, cfg).error == BadInt(value)
  {
  }

  /** The settings with the field that the known `key` of `block` names put
      back to its default: two settings agree everywhere but in that field
      exactly when their erasures are equal. */
  function Erase(block: string, key: string, cfg: Config): Config
    requires KnownKey(block, key)
  {
    if block == "ui" && key == "colors" then cfg.(ui := cfg.ui.(colors := Defaults.ui.colors))
    else if block == "ui" then cfg.(ui := cfg.ui.(compact := Defaults.ui.compact))
    else if key == "format" then cfg.(date := cfg.date.(format := Defaults.date.format))
    else cfg.(date := cfg.date.(warnDaysBefore := Defaults.date.warnDaysBefore))
  }

  /** A setting of a known key changes that key's field only. */
  lemma AssignErases(block: string, key: string, value: string, cfg: Config, cfg': Config)
    requires KnownKey(block, key) && Assign(block, key, value, cfg) == Ok(cfg')
    ensures Erase(block, key, cfg') == Erase(block, key, cfg)
  {
  }

  /** Settings that differ only in the field of `key` are sent to the same
      result by a new setting of `key`. */
  lemma AssignSameKey(block: string, key: string, value: string, cfgA: Config, cfgB: Config)
    requires KnownKey(block, key) && Erase(block, key, cfgA) == Erase(block, key, cfgB)
    ensures Assign(block, key, value, cfgA) == Assign(block, key, value, cfgB)
  {
  }

  /** Settings that differ only in the field of `key` fail alike on a setting
      of another key, and otherwise still differ only in that field. */
  lemma AssignOtherKey(block: string, key: string, other: string, value: string, cfgA: Config, cfgB: Config)
    requires KnownKey(block, key) && other != key && Erase(block, key, cfgA) == Erase(block, key, cfgB)
    ensures Assign(block, other, value, cfgA).Err? <==> Assign(block, other, value, cfgB).Err?
    ensures Assign(block, other, value, cfgA).Err? ==>
              Assign(block, other, value, cfgA).error == Assign(block, other, value, cfgB).error
    ensures Assign(block, other, value, cfgA).Ok? ==>
              Erase(block, key, Assign(block, other, value, cfgA).value) ==
              Erase(block, key, Assign(block, other, value, cfgB).value)
  {
  }

  // ---------------------------------------------------------------------
  // Whole files

  // Regroupings of sequences of lines, proved once for any element type so
  // that the proofs below need not rediscover them.

  lemma ConsAppend<T>(xs: seq<T>, ys: seq<T>)
    requires xs != []
    ensures xs + ys == [xs[0]] + (xs[1..] + ys)
  {
  }

  lemma EmptyAppend<T>(xs: seq<T>, ys: seq<T>)
    requires xs == []
    ensures xs + ys == ys
  {
  }

  lemma ConsSlice<T>(xs: seq<T>)
    requires xs != []
    ensures xs == [xs[0]] + xs[1..]
  {
  }

  lemma Enclosed<T>(a: T, xs: seq<T>, b: T, ys: seq<T>)
    ensures [a] + xs + [b] + ys == [a] + (xs + ([b] + ys))
  {
  }

  lemma TailIndex<T>(xs: seq<T>, j: nat)
    requires 1 <= j < |xs|
    ensures xs[1..][j - 1] == xs[j]
  {
  }

  /** Reading lines that start with `x`: first `x`, then the rest. */
  lemma RunFirst(st: ParseState, x: string, rest: seq<string>, n: nat)
    ensures Run(st, [x] + rest, n) ==
              match Step(st, x, n + 1)
              case Err(e) => Err(e)
              case Ok(st') => Run(st', rest, n + 1)
  {
    assert ([x] + rest)[0] == x && ([x] + rest)[1..] == rest;
  }

  /** Blank lines change nothing. */
  lemma {:induction false} BlankLinesKeepState(st: ParseState, lines: seq<string>, n: nat)
    requires forall i :: 0 <= i < |lines| ==> lines[i] == []
    ensures Run(st, lines, n) == Ok(st.config)
    decreases |lines|
  {
    if lines != [] {
      assert Step(st, lines[0], n + 1) == Ok(st);
      BlankLinesKeepState(st, lines[1..], n + 1);
    }
  }

  /** A file with nothing but blank lines, the empty file included, gives the
      defaults: colours on, not compact, "%d/%m/%y", warn one day before. */
  lemma DefaultsWhenBlank(lines: seq<string>)
    requires forall i :: 0 <= i < |lines| ==> Norm(lines[i]) == []
    ensures ParseConfigSpec(lines) == Ok(Config(Ui(true, false), DateSettings("%d/%m/%y", 1)))
  {
    BlankLinesKeepState(Initial, NormLines(lines), 0);
  }

  /** Lines that each leave the state as it is can be skipped. */
  lemma {:induction false} KeptLines(st: ParseState, body: seq<string>, tail: seq<string>, n: nat)
    requires forall i :: 0 <= i < |body| ==> Step(st, body[i], n + 1 + i) == Ok(st)
    ensures Run(st, body + tail, n) == Run(st, tail, n + |body|)
    decreases |body|
  {
    if body != [] {
      var later := body[1..];
      assert Step(st, body[0], n + 1) == Ok(st);
      assert forall i :: 0 <= i < |later| ==> later[i] == body[i + 1];
      assert forall i :: 0 <= i < |later| ==> Step(st, later[i], (n + 1) + 1 + i) == Ok(st);
      ConsAppend(body, tail);
      RunFirst(st, body[0], later + tail, n);
      KeptLines(st, later, tail, n + 1);
    } else {
      EmptyAppend(body, tail);
    }
  }

  /** Inside a block other than `ui` and `date`, blank lines and lines with
      `=` change nothing. */
  lemma UnknownBlockBody(st: ParseState, body: seq<string>, tail: seq<string>, n: nat)
    requires st.block != NoBlock && st.block != "ui" && st.block != "date"
    requires forall i :: 0 <= i < |body| ==> body[i] == [] || '=' in body[i]
    ensures Run(st, body + tail, n) == Run(st, tail, n + |body|)
  {
    forall i | 0 <= i < |body|
      ensures Step(st, body[i], n + 1 + i) == Ok(st)
    {
      if body[i] != [] {
        StepIgnoresUnknown(st, body[i], n + 1 + i);
      }
    }
    KeptLines(st, body, tail, n);
  }

  /** A whole block the parser does not know, opened outside any block, whose
      lines are all blank or carry `=` and which is closed by `}`, is skipped:
      the rest of the file is read as if it were not there (only the line
      numbers move on). */
  lemma UnknownBlockSkipped(st: ParseState, opener: string, body: seq<string>, closer: string,
                            rest: seq<string>, n: nat)
    requires st.block == NoBlock
    requires LowerCase(opener) && EndsWith(opener, "{")
    requires BlockName(opener) != "ui" && BlockName(opener) != "date"
    requires forall i :: 0 <= i < |body| ==> body[i] == [] || '=' in body[i]
    requires closer == "}"
    ensures Run(st, [opener] + body + [closer] + rest, n) == Run(st, rest, n + |body| + 2)
  {
    var inside := ParseState(BlockName(opener), st.config);
    BlockNameIsNeverNoBlock(opener);
    StepOpensBlock(st, opener, n + 1);
    Enclosed(opener, body, closer, rest);
    RunFirst(st, opener, body + ([closer] + rest), n);
    UnknownBlockBody(inside, body, [closer] + rest, n + 1);
    StepClosesBlock(inside, closer, n + 1 + |body| + 1);
    RunFirst(inside, closer, rest, n + 1 + |body|);
  }

  /** Two files whose lines agree up to upper and lower case give the same
      settings or the same error. */
  lemma CaseInsensitive(lines1: seq<string>, lines2: seq<string>)
    requires |lines1| == |lines2|
    requires forall i :: 0 <= i < |lines1| ==> Lower(lines1[i]) == Lower(lines2[i])
    ensures ParseConfigSpec(lines1) == ParseConfigSpec(lines2)
  {
    assert NormLines(lines1) == NormLines(lines2);
  }

  /** A syntax error names the 1-based number of a line, and that line has no `=`. */
  lemma {:induction false} InvalidLineIsOffending(st: ParseState, lines: seq<string>, n: nat, k: nat)
    requires Run(st, lines, n) == Err(InvalidLine(k))
    ensures n < k <= n + |lines|
    ensures MissingEquals(lines[k - n - 1])
    decreases |lines|
  {
    assert lines != [];
    ConsSlice(lines);
    RunFirst(st, lines[0], lines[1..], n);
    match Step(st, lines[0], n + 1)
    case Err(e) =>
      StepInvalidLine(st, lines[0], n + 1, k);
    case Ok(st') =>
      InvalidLineIsOffending(st', lines[1..], n + 1, k);
      TailIndex(lines, k - n - 1);
  }

  lemma NormLineAt(lines: seq<string>, i: nat)
    requires i < |lines|
    ensures NormLines(lines)[i] == Norm(lines[i])
  {
  }

  /** `parse_config` reports a syntax error only for a line of the file
      (counted from 1) that, lower-cased and trimmed, is not blank, not `}`
      and has no `=`. */
  lemma ConfigInvalidLine(lines: seq<string>, k: nat)
    requires ParseConfigSpec(lines) == Err(InvalidLine(k))
    ensures 1 <= k <= |lines| && MissingEquals(Norm(lines[k - 1]))
  {
    var normalised := NormLines(lines);
    assert Run(Initial, normalised, 0) == Err(InvalidLine(k));
    InvalidLineIsOffending(Initial, normalised, 0, k);
    NormLineAt(lines, k - 1);
  }

  /** Two states that read a line the same way read the lines that start
      with it the same way. */
  lemma RunSameFirstStep(st1: ParseState, st2: ParseState, x: string, rest: seq<string>, n: nat)
    requires Step(st1, x, n + 1) == Step(st2, x, n + 1)
    ensures Run(st1, [x] + rest, n) == Run(st2, [x] + rest, n)
  {
    RunFirst(st1, x, rest, n);
    RunFirst(st2, x, rest, n);
  }

  /** A setting read in two states with the same block and the same effect
      on their settings leaves them in the same state. */
  lemma ApplySameBlock(st1: ParseState, st2: ParseState, key: string, value: string, m: nat)
    requires st1.block == st2.block
    requires Assign(st1.block, key, value, st1.config) == Assign(st2.block, key, value, st2.config)
    ensures Apply(st1, Setting(key, value), m) == Apply(st2, Setting(key, value), m)
  {
  }

  /** Lines between two settings of `key`: blank, or settings of other keys. */
  predicate Between(mid: seq<string>, key: string)
  {
    forall i :: 0 <= i < |mid| ==> mid[i] == [] || ('=' in mid[i] && Key(mid[i]) != key)
  }

  /** Two states in the same block whose settings differ only in the field of
      the known `key` read the lines up to and including the next setting of
      `key` to the same end. */
  lemma {:induction false} AgreeingRuns(stA: ParseState, stB: ParseState, key: string, mid: seq<string>,
                                        l2: string, rest: seq<string>, n: nat)
    requires stA.block == stB.block && stA.block != NoBlock && KnownKey(stA.block, key)
    requires Erase(stA.block, key, stA.config) == Erase(stB.block, key, stB.config)
    requires Between(mid, key)
    requires '=' in l2 && Key(l2) == key
    ensures Run(stA, mid + ([l2] + rest), n) == Run(stB, mid + ([l2] + rest), n)
    decreases |mid|
  {
    if mid == [] {
      EmptyAppend(mid, [l2] + rest);
      StepSetting(stA, l2, n + 1);
      StepSetting(stB, l2, n + 1);
      AssignSameKey(stA.block, key, Value(l2), stA.config, stB.config);
      ApplySameBlock(stA, stB, key, Value(l2), n + 1);
      RunSameFirstStep(stA, stB, l2, rest, n);
    } else {
      var x := mid[0];
      ConsAppend(mid, [l2] + rest);
      RunFirst(stA, x, mid[1..] + ([l2] + rest), n);
      RunFirst(stB, x, mid[1..] + ([l2] + rest), n);
      assert Between(mid[1..], key);
      if x == [] {
        assert Step(stA, x, n + 1) == Ok(stA) && Step(stB, x, n + 1) == Ok(stB);
        AgreeingRuns(stA, stB, key, mid[1..], l2, rest, n + 1);
      } else {
        StepSetting(stA, x, n + 1);
        StepSetting(stB, x, n + 1);
        AssignOtherKey(stA.block, key, Key(x), Value(x), stA.config, stB.config);
        if Step(stA, x, n + 1).Ok? {
          AgreeingRuns(Step(stA, x, n + 1).value, Step(stB, x, n + 1).value, key, mid[1..], l2, rest, n + 1);
        }
      }
    }
  }

  /** Inside a block, a setting of a known key that is read without error is
      overridden by the next setting of the same key: with only blank lines
      and settings of other keys between them, the first one acts as a blank
      line. */
  lemma LaterAssignmentWins(st: ParseState, l1: string, mid: seq<string>, l2: string, rest: seq<string>, n: nat)
    requires st.block != NoBlock
    requires '=' in l1 && '=' in l2
    requires Key(l1) == Key(l2) && KnownKey(st.block, Key(l1))
    requires Between(mid, Key(l1))
    requires Step(st, l1, n + 1).Ok?
    ensures Run(st, [l1] + mid + [l2] + rest, n) == Run(st, [""] + mid + [l2] + rest, n)
  {
    StepSetting(st, l1, n + 1);
    var st1 := Step(st, l1, n + 1).value;
    assert st1.block == st.block;
    AssignErases(st.block, Key(l1), Value(l1), st.config, st1.config);
    Enclosed(l1, mid, l2, rest);
    Enclosed("", mid, l2, rest);
    RunFirst(st, l1, mid + ([l2] + rest), n);
    RunFirst(st, "", mid + ([l2] + rest), n);
    assert Step(st, "", n + 1) == Ok(st);
    AgreeingRuns(st1, st, Key(l1), mid, l2, rest, n + 1);
  }
}
