/** The generated env file of installer/installer_core.py and its parser. */
module EnvFile {
  import opened Texts

  // ---------------------------------------------------------------- lines

  function FirstBreak(s: string): (i: nat)
    ensures i <= |s| && (i < |s| ==> IsLineBreak(s[i])) && forall k :: 0 <= k < i ==> !IsLineBreak(s[k])
  {
    if s == "" || IsLineBreak(s[0]) then 0 else 1 + FirstBreak(s[1..])
  }

  /** `str.splitlines`; a carriage return takes a following newline with it. */
  function SplitLines(s: string): (lines: seq<string>)
    ensures forall i :: 0 <= i < |lines| ==> OneLine(lines[i])
  {
    var i := FirstBreak(s);
    if s == "" then []
    else if i == |s| then [s]
    else [s[..i]] + SplitLines(s[if s[i] == '\r' && i + 1 < |s| && s[i + 1] == '\n' then i + 2 else i + 1..])
  }

  /** `"\n".join(lines) + "\n"`, for at least one line. */
  function Written(lines: seq<string>): string
  {
    if lines == [] then "" else lines[0] + "\n" + Written(lines[1..])
  }

  lemma {:induction false} SplitWritten(lines: seq<string>)
    requires forall i :: 0 <= i < |lines| ==> OneLine(lines[i])
    ensures SplitLines(Written(lines)) == lines
  {
    hide IsLineBreak;
    if lines != [] {
      var line, rest := lines[0], Written(lines[1..]);
      SplitFirst(line, rest);
      SplitWritten(lines[1..]);
    }
  }

  lemma SplitFirst(line: string, rest: string)
    requires OneLine(line)
    ensures SplitLines(line + "\n" + rest) == [line] + SplitLines(rest)
  {
    hide IsLineBreak;
    var s := line + "\n" + rest;
    NewlineBreaks();
    assert s[|line|] == '\n';
    assert forall k :: 0 <= k < |line| ==> s[k] == line[k];
    assert FirstBreak(s) == |line|;
    assert s[..|line|] == line && s[|line| + 1..] == rest;
  }

  /** A text splits at its first line break, whichever it is; a carriage return and the
      newline after it are one. */
  lemma SplitsAtAnyBreak(line: string, c: char, rest: string)
    requires OneLine(line) && IsLineBreak(c)
    ensures SplitLines(line + [c] + rest) ==
            [line] + SplitLines(if c == '\r' && rest != "" && rest[0] == '\n' then rest[1..] else rest)
    ensures SplitLines(line) == if line == "" then [] else [line]
  {
    hide IsLineBreak;
    var s := line + [c] + rest;
    assert s[|line|] == c;
    assert forall k :: 0 <= k < |line| ==> s[k] == line[k];
    assert FirstBreak(s) == |line|;
    assert s[..|line|] == line && s[|line| + 1..] == rest;
    assert rest != "" ==> s[|line| + 1] == rest[0] && s[|line| + 2..] == rest[1..];
  }

  lemma NewlineBreaks()
    ensures IsLineBreak('\n')
  {
  }

  // ---------------------------------------------------------------- the parser

  type Env = map<string, string>

  /** One line: comments, blank lines and lines without `=` are ignored, the key ends at
      the first `=`. */
  function ParseLine(env: Env, raw: string): Env
  {
    var line := Strip(raw);
    var i := IndexOf(line, '=');
    if line == "" || line[0] == '#' || i == |line| then env
    else
      var key := Strip(line[..i]);
      if key == "" then env else env[key := Strip(line[i + 1..])]
  }

  function ParseLines(lines: seq<string>): Env
  {
    if lines == [] then map[] else ParseLine(ParseLines(lines[..|lines| - 1]), lines[|lines| - 1])
  }

  lemma NothingParsed()
    ensures ParseLines([]) == map[]
  {
  }

  lemma OneMoreLine(lines: seq<string>, k: nat)
    requires k < |lines|
    ensures ParseLines(lines[..k + 1]) == ParseLine(ParseLines(lines[..k]), lines[k])
  {
    hide ParseLine;
    assert lines[..k + 1][..k] == lines[..k];
  }

  /** `_parse_env_content`. */
  method ParseEnvContent(content: string) returns (result: Env)
    ensures result == ParseLines(SplitLines(content))
  {
    hide IsSpace, IsLineBreak, Trimmed, OneLine, SplitLines, ParseLines, Strip, IndexOf;
    NothingParsed();
    result := map[];
    var lines := SplitLines(content);
    for k := 0 to |lines|
      invariant result == ParseLines(lines[..k])
    {
      OneMoreLine(lines, k);
      var line := Strip(lines[k]);
      var i := IndexOf(line, '=');
      if line != "" && line[0] != '#' && i < |line| {
        var key := Strip(line[..i]);
        if key != "" { result := result[key := Strip(line[i + 1..])]; }
      }
    }
    assert lines[..|lines|] == lines;
  }

  predicate Plain(value: string) { OneLine(value) && Trimmed(value) }

  lemma ParsedLineIsPlain(env: Env, line: string)
    requires OneLine(line) && forall k :: k in env ==> Plain(env[k])
    ensures forall k :: k in ParseLine(env, line) ==> Plain(ParseLine(env, line)[k])
  {
    hide IsLineBreak, IsSpace, Trimmed, Strip, IndexOf;
    var stripped := Strip(line);
    var i := IndexOf(stripped, '=');
    if i < |stripped| { assert OneLine(stripped[i + 1..]); }
  }

  /** Whatever it is given, the parser yields values on one line without space around. */
  lemma {:induction false} ParsedValuesArePlain(lines: seq<string>)
    requires forall i :: 0 <= i < |lines| ==> OneLine(lines[i])
    ensures forall k :: k in ParseLines(lines) ==> Plain(ParseLines(lines)[k])
  {
    hide IsLineBreak, IsSpace, Plain, OneLine, ParseLine;
    if lines != [] {
      var n := |lines| - 1;
      ParsedValuesArePlain(lines[..n]);
      ParsedLineIsPlain(ParseLines(lines[..n]), lines[n]);
    }
  }

  // ---------------------------------------------------------------- what any content says

  /** The line sets `key` to `value`: without the space around it, it is no comment, and the
      two stand before and after its first `=`, space around them apart. */
  ghost predicate Binds(line: string, key: string, value: string)
  {
    key != "" &&
    exists before, after ::
      && Strip(line) == before + "=" + after && '=' !in before && Strip(line)[0] != '#'
      && Strip(before) == key && Strip(after) == value
  }

  lemma SplitsAtFirst(s: string, before: string, after: string)
    requires '=' !in before
    ensures s == before + "=" + after <==>
            IndexOf(s, '=') < |s| && before == s[..IndexOf(s, '=')] && after == s[IndexOf(s, '=') + 1..]
  {
    hide IndexOf;
    var i := IndexOf(s, '=');
    if s == before + "=" + after {
      EqualsAt(s, before, after);
    }
    if i < |s| && before == s[..i] && after == s[i + 1..] {
      assert s == s[..i] + [s[i]] + s[i + 1..];
    }
  }

  lemma EqualsAt(s: string, before: string, after: string)
    requires '=' !in before && s == before + "=" + after
    ensures IndexOf(s, '=') == |before| && before == s[..|before|] && after == s[|before| + 1..]
  {
    hide IndexOf;
    assert s[|before|] == '=';
    forall k | 0 <= k < |before| ensures s[k] != '=' {
      assert s[k] == before[k];
    }
  }

  /** What one line does: it sets the key it binds, to the one value, or nothing. */
  lemma LineMeans(env: Env, line: string)
    ensures forall key, value :: Binds(line, key, value) ==> ParseLine(env, line) == env[key := value]
    ensures (forall key, value :: !Binds(line, key, value)) ==> ParseLine(env, line) == env
  {
    hide Strip;
    var s := Strip(line);
    var i := IndexOf(s, '=');
    forall key, value | Binds(line, key, value) ensures ParseLine(env, line) == env[key := value] {
      var before, after :| s == before + "=" + after && '=' !in before && s[0] != '#'
                           && Strip(before) == key && Strip(after) == value;
      SplitsAtFirst(s, before, after);
    }
    if i < |s| {
      assert '=' !in s[..i];
      SplitsAtFirst(s, s[..i], s[i + 1..]);
      if s[0] != '#' && Strip(s[..i]) != "" { assert Binds(line, Strip(s[..i]), Strip(s[i + 1..])); }
    }
  }

  /** A key has a value exactly when the last line that binds the key binds it to that
      value; comments, blank lines and lines without `=` have no effect. */
  lemma {:induction false} LastLineWins(lines: seq<string>, key: string, value: string)
    ensures key in ParseLines(lines) && ParseLines(lines)[key] == value <==>
            exists i :: 0 <= i < |lines| && Binds(lines[i], key, value)
                        && forall k, v :: i < k < |lines| ==> !Binds(lines[k], key, v)
  {
    hide Binds, ParseLine;
    if lines != [] {
      var n := |lines| - 1;
      LastLineWins(lines[..n], key, value);
      LineMeans(ParseLines(lines[..n]), lines[n]);
      assert forall i :: 0 <= i < n ==> lines[..n][i] == lines[i];
      if v :| Binds(lines[n], key, v) {
        OneValue(lines[n], key, v, value);
      }
    }
  }

  lemma OneValue(line: string, key: string, v: string, v': string)
    requires Binds(line, key, v)
    ensures Binds(line, key, v') ==> v' == v
  {
    hide Strip, Binds, ParseLine;
    LineMeans(map[], line);
    if Binds(line, key, v') {
      var none: Env := map[];
      assert none[key := v][key] == v && none[key := v'][key] == v';
    }
  }

  // ---------------------------------------------------------------- printing and parsing

  datatype Setting = Setting(key: string, value: string)

  function Line(s: Setting): string { s.key + "=" + s.value }

  function Lines(settings: seq<Setting>): (r: seq<string>)
    ensures |r| == |settings| && forall i :: 0 <= i < |r| ==> r[i] == Line(settings[i])
  {
    seq(|settings|, (i: nat) requires i < |settings| => Line(settings[i]))
  }

  function Header(createdAt: string): seq<string>
  {
    ["# FlowHub - generated environment file", "# Created: " + createdAt, "# DO NOT COMMIT THIS FILE", ""]
  }

  /** The env file: the header, then one line per setting. */
  function Content(createdAt: string, settings: seq<Setting>): string { Written(Header(createdAt) + Lines(settings)) }

  /** The letters of the keys. */
  predicate IsKeyChar(c: char) { 'A' <= c <= 'Z' || c == '_' }

  predicate IsKey(key: string) { key != "" && forall i :: 0 <= i < |key| ==> IsKeyChar(key[i]) }

  predicate ProperKeys(settings: seq<Setting>)
  {
    && (forall i :: 0 <= i < |settings| ==> IsKey(settings[i].key))
    && (forall i, j :: 0 <= i < j < |settings| ==> settings[i].key != settings[j].key)
  }

  function MapOf(settings: seq<Setting>): Env
  {
    if settings == [] then map[]
    else var n := |settings| - 1; MapOf(settings[..n])[settings[n].key := settings[n].value]
  }

  lemma {:induction false} MapOfHas(settings: seq<Setting>, i: nat)
    requires ProperKeys(settings) && i < |settings|
    ensures settings[i].key in MapOf(settings) && MapOf(settings)[settings[i].key] == settings[i].value
  {
    hide IsKey;
    var n := |settings| - 1;
    if i < n {
      MapOfHas(settings[..n], i);
      assert settings[i].key != settings[n].key;
    }
  }

  lemma KeyChars(key: string)
    requires IsKey(key)
    ensures forall i :: 0 <= i < |key| ==> !IsSpace(key[i]) && !IsLineBreak(key[i]) && key[i] != '=' && key[i] != '#'
    ensures !IsSpace('=') && !IsLineBreak('=')
  {
  }

  lemma LineFacts(s: Setting)
    requires IsKey(s.key) && Plain(s.value)
    ensures var line := Line(s);
            && line != "" && line[0] != '#' && OneLine(line) && Trimmed(line) && Trimmed(s.key)
            && IndexOf(line, '=') == |s.key| < |line| && line[..|s.key|] == s.key && line[|s.key| + 1..] == s.value
  {
    hide IsSpace, IsLineBreak, IsKey;
    KeyChars(s.key);
    var line := Line(s);
    assert s.key != "" by { NotEmpty(s.key); }
    assert line[0] == s.key[0];
    assert line[|line| - 1] == if s.value == "" then '=' else s.value[|s.value| - 1];
    assert line[|s.key|] == '=';
    assert forall k :: 0 <= k < |s.key| ==> line[k] == s.key[k];
    assert forall k :: |s.key| < k < |line| ==> line[k] == s.value[k - |s.key| - 1];
    assert line[..|s.key|] == s.key && line[|s.key| + 1..] == s.value;
  }

  lemma NotEmpty(key: string)
    requires IsKey(key)
    ensures key != ""
  {
  }

  /** A printed line with a plain value is read back as it was meant, also when the value
      is empty or contains `=` or `#`. */
  lemma LineParses(env: Env, s: Setting)
    requires IsKey(s.key) && Plain(s.value)
    ensures OneLine(Line(s)) && ParseLine(env, Line(s)) == env[s.key := s.value]
  {
    hide IsSpace, IsLineBreak, IsKey, IsKeyChar, OneLine, Trimmed, Line, Strip, IndexOf;
    LineFacts(s);
    NotEmpty(s.key);
  }

  lemma {:induction false} LinesParse(before: seq<string>, settings: seq<Setting>)
    requires ParseLines(before) == map[] && ProperKeys(settings)
    requires forall i :: 0 <= i < |settings| ==> Plain(settings[i].value)
    ensures ParseLines(before + Lines(settings)) == MapOf(settings)
  {
    hide Plain, ParseLine, IsKey, Line;
    if settings == [] {
      assert before + Lines(settings) == before;
    } else {
      var n := |settings| - 1;
      LinesParse(before, settings[..n]);
      var all := before + Lines(settings);
      assert all[..|all| - 1] == before + Lines(settings[..n]);
      LineParses(MapOf(settings[..n]), settings[n]);
    }
  }

  lemma CommentParses(env: Env, line: string)
    requires line == "" || line[0] == '#'
    ensures ParseLine(env, line) == env
  {
    if line != "" {
      var stripped := Strip(line);
      assert !IsSpace('#');
      assert StripLeft(line) == line;
      assert stripped <= line;
    }
  }

  lemma HeaderParses(createdAt: string)
    ensures ParseLines(Header(createdAt)) == map[]
  {
    hide ParseLine;
    var h := Header(createdAt);
    forall i | 0 <= i < 4 ensures h[i] == "" || h[i][0] == '#' {
    }
    CommentParses(map[], h[0]);
    CommentParses(map[], h[1]);
    CommentParses(map[], h[2]);
    CommentParses(map[], h[3]);
    assert h[..3][..2] == h[..2] && h[..2][..1] == h[..1] && h[..1][..0] == [];
    assert ParseLines([]) == map[];
    assert ParseLines(h[..1]) == ParseLine(ParseLines(h[..1][..0]), h[0]);
    assert ParseLines(h[..2]) == ParseLine(ParseLines(h[..1]), h[1]);
    assert ParseLines(h[..3]) == ParseLine(ParseLines(h[..2]), h[2]);
  }

  /** Parsing the printed settings gives back exactly the printed map if and only if every
      value is on one line and has no space around it. */
  lemma RoundTripExactlyWhenPlain(createdAt: string, settings: seq<Setting>)
    requires OneLine(createdAt) && ProperKeys(settings)
    ensures ParseLines(SplitLines(Content(createdAt, settings))) == MapOf(settings) <==>
            forall i :: 0 <= i < |settings| ==> Plain(settings[i].value)
  {
    hide IsLineBreak, IsSpace, IsKey, MapOf, ParseLines;
    if forall i :: 0 <= i < |settings| ==> Plain(settings[i].value) {
      HeaderIsLines(createdAt);
      HeaderParses(createdAt);
      LinesParse(Header(createdAt), settings);
      LinesAreLines(settings);
      SplitWritten(Header(createdAt) + Lines(settings));
    }
    var parsed := ParseLines(SplitLines(Content(createdAt, settings)));
    ParsedValuesArePlain(SplitLines(Content(createdAt, settings)));
    if parsed == MapOf(settings) {
      forall i | 0 <= i < |settings| ensures Plain(settings[i].value) {
        MapOfHas(settings, i);
      }
    }
  }

  /** The fixed text before the time keeps the comment on one line. */
  lemma CreatedLine(createdAt: string)
    requires OneLine(createdAt)
    ensures OneLine("# Created: " + createdAt)
  {
    var fixed := "# Created: ";
    assert forall i :: 0 <= i < |fixed| ==> !IsLineBreak(fixed[i]);
    hide IsLineBreak;
    var line := fixed + createdAt;
    assert forall i :: 0 <= i < |line| ==> line[i] == if i < |fixed| then fixed[i] else createdAt[i - |fixed|];
  }

  lemma HeaderIsLines(createdAt: string)
    requires OneLine(createdAt)
    ensures forall i :: 0 <= i < |Header(createdAt)| ==> OneLine(Header(createdAt)[i])
  {
    hide OneLine;
    CreatedLine(createdAt);
    FixedLines();
  }

  lemma FixedLines()
    ensures OneLine("# FlowHub - generated environment file") && OneLine("# DO NOT COMMIT THIS FILE") && OneLine("")
  {
  }

  lemma LinesAreLines(settings: seq<Setting>)
    requires ProperKeys(settings) && forall i :: 0 <= i < |settings| ==> Plain(settings[i].value)
    ensures forall i :: 0 <= i < |settings| ==> OneLine(Lines(settings)[i])
  {
    hide Plain, IsKey;
    forall i | 0 <= i < |settings| ensures OneLine(Lines(settings)[i]) {
      LineParses(map[], settings[i]);
    }
  }
}
