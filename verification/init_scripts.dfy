/**
 The PID-1 init script the converter writes into the guest's root
 filesystem: a shebang line, one `export` line per environment entry of the
 image configuration, and the image command joined with single spaces.
 Nothing is quoted or escaped.
 */
module InitScripts {
  import opened Strings

  /** First line of every init script. */
  const Shebang: string := "#!/bin/sh"

  /** Where the script is placed, relative to the mounted root. */
  const InitPath: string := "/init.sh"

  /** The two fields of the image configuration the script is built from. */
  datatype ImageConfig = ImageConfig(cmd: seq<string>, env: seq<string>)

  /** The configuration seen after decoding the config blob: the decoding
      error is not checked, so an undecodable blob leaves the zero value,
      with no command and no environment. */
  function Decoded(decodes: bool, config: ImageConfig): (seen: ImageConfig)
    ensures decodes ==> seen == config
    ensures !decodes ==> seen.cmd == [] && seen.env == []
  {
    if decodes then config else ImageConfig([], [])
  }

  /** The directive for one environment entry, copied verbatim. */
  function ExportLine(entry: string): string
  {
    "export " + entry
  }

  /** The text the loop over the environment writes: one newline-terminated
      export directive per entry. */
  function Exports(env: seq<string>): (text: string)
  {
    if |env| == 0 then "" else ExportLine(env[0]) + "\n" + Exports(env[1..])
  }

  /** The script text for an already joined command line `initCmd`, written
      in the order the source writes it. */
  function Render(env: seq<string>, initCmd: string): (script: string)
  {
    Shebang + "\n" + Exports(env) + initCmd + "\n"
  }

  /** The init script for an image's environment and command. */
  function InitScript(env: seq<string>, cmd: seq<string>): (script: string)
  {
    Render(env, Join(cmd, ' '))
  }

  /** One export directive per entry, in order. */
  function ExportLines(env: seq<string>): (lines: seq<string>)
    ensures |lines| == |env|
    ensures forall i :: 0 <= i < |env| ==> lines[i] == ExportLine(env[i])
  {
    seq(|env|, i requires 0 <= i < |env| => ExportLine(env[i]))
  }

  /** The intended line layout of a script: shebang, exports, command. */
  function ScriptLines(env: seq<string>, initCmd: string): seq<string>
  {
    [Shebang] + ExportLines(env) + [initCmd]
  }

  predicate NoNewlines(parts: seq<string>)
  {
    forall i :: 0 <= i < |parts| ==> '\n' !in parts[i]
  }

  /** The text of the export loop is exactly its lines, each newline-terminated. */
  lemma {:induction false} ExportsAreLines(env: seq<string>)
    ensures Exports(env) == Unlines(ExportLines(env))
    decreases |env|
  {
    if |env| > 0 {
      ExportsAreLines(env[1..]);
      assert ExportLines(env)[1..] == ExportLines(env[1..]);
    }
  }

  /** Every line of the script, the command line included, ends in a newline. */
  lemma RenderIsUnlines(env: seq<string>, initCmd: string)
    ensures Render(env, initCmd) == Unlines(ScriptLines(env, initCmd))
  {
    ExportsAreLines(env);
    UnlinesAppend([Shebang] + ExportLines(env), [initCmd]);
    UnlinesAppend([Shebang], ExportLines(env));
    assert Unlines([initCmd]) == initCmd + "\n";
    assert Unlines([Shebang]) == Shebang + "\n";
  }

  /** Newline-free entries and command line give newline-free lines. */
  lemma LayoutHasNoNewlines(env: seq<string>, initCmd: string)
    requires NoNewlines(env) && '\n' !in initCmd
    ensures NoNewlines(ScriptLines(env, initCmd))
  {
  }

  /** The first line is the shebang whatever the environment and command hold. */
  lemma FirstLineIsShebang(env: seq<string>, cmd: seq<string>)
    ensures |Lines(InitScript(env, cmd))| > 0
    ensures Lines(InitScript(env, cmd))[0] == Shebang
  {
    var rest := Exports(env) + Join(cmd, ' ') + "\n";
    assert InitScript(env, cmd) == Shebang + "\n" + rest;
    FirstLine(Shebang, rest);
  }

  /** With newline-free entries and arguments the script has exactly
      |env| + 2 lines: the shebang, `export <entry>` for each entry in order,
      and the space-joined command; every line is newline-terminated. */
  lemma ScriptLayout(env: seq<string>, cmd: seq<string>)
    requires NoNewlines(env) && NoNewlines(cmd)
    ensures var lines := Lines(InitScript(env, cmd));
      && |lines| == |env| + 2
      && lines[0] == Shebang
      && (forall i :: 0 <= i < |env| ==> lines[i + 1] == "export " + env[i])
      && lines[|env| + 1] == Join(cmd, ' ')
      && Unlines(lines) == InitScript(env, cmd)
  {
    var layout := ScriptLines(env, Join(cmd, ' '));
    JoinAvoids(cmd, ' ', '\n');
    RenderIsUnlines(env, Join(cmd, ' '));
    LayoutHasNoNewlines(env, Join(cmd, ' '));
    SplitUnlines(layout);
    assert forall i :: 0 <= i < |env| ==> layout[i + 1] == "export " + env[i];
  }

  /** The script does not escape arguments: an argument containing a space
      gives the same script as the two arguments on either side of it. */
  lemma CommandIsNotEscaped(env: seq<string>, pre: seq<string>, x: string, y: string, post: seq<string>)
    ensures InitScript(env, pre + [x + " " + y] + post) == InitScript(env, pre + [x, y] + post)
  {
    assert x + " " + y == x + [' '] + y;
    JoinMergesNeighbours(pre, x, y, post, ' ');
  }

  /** An entry is written unquoted, so a newline inside it splits its export
      line in two, and the script has |env| + 3 lines instead of |env| + 2. */
  lemma NewlineInEntryAddsLine(a: string, b: string, cmd: seq<string>)
    requires '\n' !in a && '\n' !in b && NoNewlines(cmd)
    ensures Lines(InitScript([a + "\n" + b], cmd)) == [Shebang, "export " + a, b, Join(cmd, ' ')]
  {
    var initCmd := Join(cmd, ' ');
    var lines := [Shebang, "export " + a, b, initCmd];
    JoinAvoids(cmd, ' ', '\n');
    assert Exports([a + "\n" + b]) == "export " + a + "\n" + b + "\n";
    assert Unlines(lines[3..]) == initCmd + "\n";
    assert Unlines(lines[2..]) == b + "\n" + initCmd + "\n";
    assert Unlines(lines[1..]) == "export " + a + "\n" + b + "\n" + initCmd + "\n";
    assert InitScript([a + "\n" + b], cmd) == Unlines(lines);
    assert NoNewlines(lines);
    SplitUnlines(lines);
  }

  /** The documented example: env ["FOO=bar"], cmd ["/bin/echo", "hi"]. */
  lemma EchoExample()
    ensures InitScript(["FOO=bar"], ["/bin/echo", "hi"]) == "#!/bin/sh\nexport FOO=bar\n/bin/echo hi\n"
  {
    assert Join(["/bin/echo", "hi"], ' ') == "/bin/echo hi";
    assert Exports(["FOO=bar"]) == "export FOO=bar\n";
  }

  /** An undecodable config blob still yields a script: the shebang and an
      empty command line. */
  lemma UndecodableConfigScript(config: ImageConfig)
    ensures var seen := Decoded(false, config);
      InitScript(seen.env, seen.cmd) == "#!/bin/sh\n\n"
  {
  }

  /** Reading a script back: the environment entries and the command line,
      or `Malformed` when the text does not have the init-script layout. */
  datatype Parsed = Malformed | Script(env: seq<string>, initCmd: string)

  predicate IsExportLine(line: string)
  {
    |line| >= 7 && line[..7] == "export "
  }

  function ParseScript(text: string): (p: Parsed)
  {
    var lines := Split(text, '\n');
    if |lines| < 3 || lines[0] != Shebang || lines[|lines| - 1] != "" then Malformed
    else
      var body := lines[1..|lines| - 2];
      if forall i :: 0 <= i < |body| ==> IsExportLine(body[i]) then
        Script(seq(|body|, i requires 0 <= i < |body| => body[i][7..]), lines[|lines| - 2])
      else Malformed
  }

  /** Parsing recovers the environment and command line of every rendered
      script whose entries and command line hold no newline. */
  lemma ParseRender(env: seq<string>, initCmd: string)
    requires NoNewlines(env) && '\n' !in initCmd
    ensures ParseScript(Render(env, initCmd)) == Script(env, initCmd)
  {
    var layout := ScriptLines(env, initCmd);
    RenderIsUnlines(env, initCmd);
    LayoutHasNoNewlines(env, initCmd);
    SplitUnlines(layout);
    var lines := layout + [""];
    var body := lines[1..|lines| - 2];
    assert body == ExportLines(env);
    assert forall i :: 0 <= i < |body| ==> body[i][7..] == env[i];
  }

  /** Conversely, every text that parses is the rendering of what it parses to. */
  lemma RenderParse(text: string)
    requires ParseScript(text).Script?
    ensures Render(ParseScript(text).env, ParseScript(text).initCmd) == text
  {
    var lines := Split(text, '\n');
    var body := lines[1..|lines| - 2];
    var p := ParseScript(text);
    assert ExportLines(p.env) == body by {
      forall i | 0 <= i < |body|
        ensures ExportLines(p.env)[i] == body[i]
      {
        assert body[i] == body[i][..7] + body[i][7..];
      }
    }
    assert lines == ScriptLines(p.env, p.initCmd) + [""];
    JoinSplit(text, '\n');
    UnlinesIsJoin(ScriptLines(p.env, p.initCmd));
    RenderIsUnlines(p.env, p.initCmd);
  }

  /** Reading the script back yields the environment, and splitting its
      command line at spaces yields the command, provided the command is
      not empty and no argument holds a space or a newline. */
  lemma CommandRoundTrip(env: seq<string>, cmd: seq<string>)
    requires NoNewlines(env) && NoNewlines(cmd)
    requires |cmd| > 0 && forall i :: 0 <= i < |cmd| ==> ' ' !in cmd[i]
    ensures ParseScript(InitScript(env, cmd)).Script?
    ensures ParseScript(InitScript(env, cmd)).env == env
    ensures Split(ParseScript(InitScript(env, cmd)).initCmd, ' ') == cmd
  {
    JoinAvoids(cmd, ' ', '\n');
    ParseRender(env, Join(cmd, ' '));
    SplitJoin(cmd, ' ');
  }
}
