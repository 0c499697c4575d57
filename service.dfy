/** The service-definition patcher (`patchServiceFile`): classify a
    luna-service2 `.service` text by marker substrings, first match wins, and
    rewrite its `Exec=` lines so the service runs outside the jail or through
    the co-located `run-js-service` helper. Text is split into lines on '\n';
    both rewrites are per-line maps. */
module ServiceDefinition {
  import opened Text

  const JsMarker := "/run-js-service"
  const JailerMarker := "/jailer"
  const MediaMarker := "Exec=/media"

  /** The directive the JS rewrite replaces (the `^Exec=\/usr\/bin\/run-js-service` pattern). */
  const JsExec := "Exec=/usr/bin/run-js-service"
  /** The start of a jailed launch line (`^Exec=\/usr\/bin\/jailer ` in the native pattern). */
  const JailerExec := "Exec=/usr/bin/jailer "
  const ExecKey := "Exec="

  /** The kind of service the text describes, derived from its markers. */
  datatype Kind = Scripted | Native | MediaMounted | Unknown

  /** First match wins: JS launcher, then jailer, then a `/media` launch path. */
  function Classify(text: string): Kind
  {
    if Contains(text, JsMarker) then Scripted
    else if Contains(text, JailerMarker) then Native
    else if Contains(text, MediaMarker) then MediaMounted
    else Unknown
  }

  /** One line of the JS rewrite: the fixed launcher directive becomes `Exec=<helper>`. */
  function RewriteJsLine(line: string, helper: string): (r: string)
    ensures JsExec <= line ==>
              exists rest :: line == JsExec + rest && r == ExecKey + helper + rest
    ensures !(JsExec <= line) ==> r == line
  {
    if JsExec <= line then
      assert line == JsExec + line[|JsExec|..];
      ExecKey + helper + line[|JsExec|..]
    else line
  }

  /** One line of the native rewrite: `Exec=/usr/bin/jailer <args> <last>` becomes
      `Exec=<last>`, where `<last>` follows the last space; a jailer line with no
      space after `jailer ` does not match and is kept. */
  function RewriteJailerLine(line: string): (r: string)
    ensures !(JailerExec <= line) || ' ' !in line[|JailerExec|..] ==> r == line
    ensures JailerExec <= line && ' ' in line[|JailerExec|..] ==>
              exists x, t :: line == JailerExec + x + " " + t && ' ' !in t && r == ExecKey + t
  {
    if JailerExec <= line then
      var rest := line[|JailerExec|..];
      var k := LastIndexOf(rest, ' ');
      if k >= 0 then
        var t := rest[k + 1..];
        assert ' ' !in t by {
          forall j | 0 <= j < |t| ensures t[j] != ' ' { assert t[j] == rest[k + 1 + j]; }
        }
        assert line == JailerExec + rest[..k] + " " + t by {
          assert rest == rest[..k] + " " + t;
        }
        ExecKey + t
      else line
    else line
  }

  function MapJs(lines: seq<string>, helper: string): (r: seq<string>)
    ensures |r| == |lines|
  {
    seq(|lines|, i requires 0 <= i < |lines| => RewriteJsLine(lines[i], helper))
  }

  function MapJailer(lines: seq<string>): (r: seq<string>)
    ensures |r| == |lines|
  {
    seq(|lines|, i requires 0 <= i < |lines| => RewriteJailerLine(lines[i]))
  }

  /** The text `patchServiceFile` would write, or the original text when it writes
      nothing. `helperExists` is whether the helper path exists on disk; without it
      a JS service is left alone. */
  function Patched(text: string, helper: string, helperExists: bool): (r: string)
    ensures r != text ==> Classify(text) == Native || (Classify(text) == Scripted && helperExists)
  {
    match Classify(text)
    case Scripted =>
      if helperExists then Join(MapJs(Split(text, '\n'), helper), '\n') else text
    case Native => Join(MapJailer(Split(text, '\n')), '\n')
    case MediaMounted => text
    case Unknown => text
  }

  /** Whether `patchServiceFile` writes the file and reports a change. */
  function Changed(text: string, helper: string, helperExists: bool): bool
  {
    Patched(text, helper, helperExists) != text
  }

  // ---------------------------------------------------------------------------
  // Properties
  // ---------------------------------------------------------------------------

  /** Classification order: the JS marker wins over the jailer marker, so a text
      holding both gets the JS rewrite (and no jailer rewrite). */
  lemma ScriptedBeatsJailer(text: string, helper: string)
    requires Contains(text, JsMarker) && Contains(text, JailerMarker)
    ensures Patched(text, helper, true) == Join(MapJs(Split(text, '\n'), helper), '\n')
    ensures Patched(text, helper, false) == text
  {
  }

  /** A text with none of the three markers, or only the `/media` one, is not touched. */
  lemma UnmarkedUnchanged(text: string, helper: string, helperExists: bool)
    requires !Contains(text, JsMarker) && !Contains(text, JailerMarker)
    ensures !Changed(text, helper, helperExists)
  {
  }

  /** The JS rewrite, line by line: the line count is kept, a line that starts with
      the fixed launcher directive keeps everything after it behind `Exec=<helper>`,
      and every other line is kept as it was. Without the helper nothing changes. */
  lemma {:induction false} JsRewriteLines(text: string, helper: string)
    requires Contains(text, JsMarker) && '\n' !in helper
    ensures var old_ := Split(text, '\n');
            var new_ := Split(Patched(text, helper, true), '\n');
            |new_| == |old_| &&
            forall i :: 0 <= i < |old_| ==>
              if JsExec <= old_[i] then new_[i] == ExecKey + helper + old_[i][|JsExec|..]
              else new_[i] == old_[i]
    ensures !Changed(text, helper, false)
  {
    var old_ := Split(text, '\n');
    var lines := MapJs(old_, helper);
    forall i | 0 <= i < |lines| ensures '\n' !in lines[i] {
      JsLineNoNewline(old_[i], helper);
    }
    SplitJoin(lines, '\n');
    assert Split(Patched(text, helper, true), '\n') == lines;
    forall i | 0 <= i < |old_|
      ensures if JsExec <= old_[i] then lines[i] == ExecKey + helper + old_[i][|JsExec|..]
              else lines[i] == old_[i]
    {
      assert lines[i] == RewriteJsLine(old_[i], helper);
    }
  }

  /** The JS rewrite of a line adds no line break, for a helper without one. */
  lemma JsLineNoNewline(line: string, helper: string)
    requires '\n' !in line && '\n' !in helper
    ensures '\n' !in RewriteJsLine(line, helper)
  {
    if JsExec <= line {
      var rest := line[|JsExec|..];
      assert line == JsExec + rest;
      assert '\n' !in rest;
      assert '\n' !in ExecKey;
    }
  }

  /** The native rewrite, line by line: the line count is kept; a line that starts
      with `Exec=/usr/bin/jailer ` and has a space after it is
      `Exec=/usr/bin/jailer <x> <t>` with `t` free of spaces and becomes `Exec=<t>`;
      every other line is kept. */
  lemma {:induction false} JailerRewriteLines(text: string)
    requires !Contains(text, JsMarker) && Contains(text, JailerMarker)
    ensures var old_ := Split(text, '\n');
            var new_ := Split(Patched(text, "", false), '\n');
            |new_| == |old_| &&
            forall i :: 0 <= i < |old_| ==>
              if JailerExec <= old_[i] && ' ' in old_[i][|JailerExec|..] then
                exists x, t :: old_[i] == JailerExec + x + " " + t && ' ' !in t && new_[i] == ExecKey + t
              else new_[i] == old_[i]
  {
    var old_ := Split(text, '\n');
    JailerLinesSplit(text);
    var new_ := MapJailer(old_);
    forall i | 0 <= i < |old_|
      ensures if JailerExec <= old_[i] && ' ' in old_[i][|JailerExec|..] then
                exists x, t :: old_[i] == JailerExec + x + " " + t && ' ' !in t && new_[i] == ExecKey + t
              else new_[i] == old_[i]
    {
      assert new_[i] == RewriteJailerLine(old_[i]);
    }
  }

  lemma JailerLinesSplit(text: string)
    ensures Split(Join(MapJailer(Split(text, '\n')), '\n'), '\n') == MapJailer(Split(text, '\n'))
  {
    var lines := MapJailer(Split(text, '\n'));
    forall i | 0 <= i < |lines| ensures '\n' !in lines[i] {
      JailerLineNoNewline(Split(text, '\n')[i]);
    }
    SplitJoin(lines, '\n');
  }

  lemma JailerLineNoNewline(line: string)
    requires '\n' !in line
    ensures '\n' !in RewriteJailerLine(line)
  {
    var r := RewriteJailerLine(line);
    if r != line {
      var x, t :| line == JailerExec + x + " " + t && ' ' !in t && r == ExecKey + t;
      var p := JailerExec + x + " ";
      assert line == p + t;
      assert '\n' !in t;
      assert '\n' !in ExecKey;
    }
  }

  /** Converse of the native line rewrite: any jailer line whose last token `t`
      follows a space is rewritten to `Exec=t`, whatever the arguments `x` are. */
  lemma JailerLineRewrites(x: string, t: string)
    requires ' ' !in t
    ensures RewriteJailerLine(JailerExec + x + " " + t) == ExecKey + t
  {
    var line := JailerExec + x + " " + t;
    assert JailerExec <= line;
    var rest := line[|JailerExec|..];
    assert rest == x + " " + t;
    assert rest[|x|] == ' ';
    assert forall j :: |x| < j < |rest| ==> rest[j] == t[j - |x| - 1];
    assert LastIndexOf(rest, ' ') == |x|;
    assert rest[|x| + 1..] == t;
  }

  /** A text that starts with the JS launcher directive holds the JS marker. */
  lemma LauncherHasMarker(s: string)
    requires JsExec <= s
    ensures Contains(s, JsMarker)
  {
    assert JsMarker <= s[13..];
    ContainsAt(s, JsMarker, 13);
  }

  /** A text that starts with a jailed launch holds the jailer marker. */
  lemma JailerHasMarker(s: string)
    requires JailerExec <= s
    ensures Contains(s, JailerMarker)
  {
    assert JailerMarker <= s[13..];
    ContainsAt(s, JailerMarker, 13);
  }

  /** Worked example: a lone JS launch line, `Exec=/usr/bin/run-js-service`,
      becomes a launch of the helper. */
  lemma JsExample(text: string, helper: string)
    requires text == JsExec + "\n"
    requires '\n' !in helper
    ensures Patched(text, helper, true) == "Exec=" + helper + "\n"
  {
    assert '\n' !in JsExec;
    SplitLine(JsExec, '\n');
    LauncherHasMarker(text);
    assert JsExec[|JsExec|..] == "";
    assert RewriteJsLine(JsExec, helper) == ExecKey + helper;
    assert !(JsExec <= "");
    assert MapJs([JsExec, ""], helper) == [ExecKey + helper, ""];
    JoinTwo(ExecKey + helper, "", '\n');
  }

  /** A step of `JailerExample`: the example text has no `v`, so no JS marker. */
  lemma JailerExampleNoV(x: string, t: string)
    requires x == "--flag1 --flag2" && t == "/opt/bin/real-binary"
    ensures 'v' !in JailerExec + x + " " + t + "\n"
  {
    assert 'v' !in JailerExec;
    assert 'v' !in x;
    assert 'v' !in t;
  }

  /** A one-line native service text loses the jailer and its arguments. */
  lemma JailerSingleLine(text: string, x: string, t: string)
    requires text == JailerExec + x + " " + t + "\n"
    requires ' ' !in t && '\n' !in x && '\n' !in t && !Contains(text, JsMarker)
    ensures Patched(text, "", false) == ExecKey + t + "\n"
  {
    var line := JailerExec + x + " " + t;
    assert text == line + ['\n'];
    assert '\n' !in line;
    SplitLine(line, '\n');
    JailerHasMarker(text);
    JailerLineRewrites(x, t);
    assert MapJailer([line, ""]) == [ExecKey + t, ""];
    JoinTwo(ExecKey + t, "", '\n');
  }

  /** Worked example: the jailer and its arguments are stripped from a native
      launch line, `Exec=/usr/bin/jailer --flag1 --flag2 /opt/bin/real-binary`. */
  lemma JailerExample(text: string, x: string, t: string)
    requires x == "--flag1 --flag2" && t == "/opt/bin/real-binary"
    requires text == JailerExec + x + " " + t + "\n"
    ensures Patched(text, "", false) == "Exec=/opt/bin/real-binary\n"
  {
    JailerExampleNoV(x, t);
    NotContainsChar(text, JsMarker, 'v');
    JailerSingleLine(text, x, t);
    JailerExampleResult(t);
  }

  /** A step of `JailerExample`: the rewritten line spelled out. */
  lemma JailerExampleResult(t: string)
    requires t == "/opt/bin/real-binary"
    ensures ExecKey + t + ['\n'] == "Exec=/opt/bin/real-binary\n"
  {
  }

  // ---------------------------------------------------------------------------
  // Idempotence
  // ---------------------------------------------------------------------------

  /** The helper paths for which a second run is a no-op: no line break in it, it
      holds the JS marker (it is `<dir>/run-js-service`), and it is neither a
      proper extension nor a proper prefix of `/usr/bin/run-js-service`. Either
      it is that path, and the rewrite leaves the line as it was, or a rewritten
      line never starts with the launcher directive again. */
  predicate SafeHelper(helper: string)
  {
    '\n' !in helper && Contains(helper, JsMarker) &&
    !("/usr/bin/run-js-service" < helper) && !(helper < "/usr/bin/run-js-service")
  }

  lemma JsLineIdempotent(line: string, helper: string)
    requires SafeHelper(helper)
    ensures RewriteJsLine(RewriteJsLine(line, helper), helper) == RewriteJsLine(line, helper)
  {
    if JsExec <= line {
      var rest := line[|JsExec|..];
      var r := ExecKey + helper + rest;
      assert RewriteJsLine(line, helper) == r;
      if helper == "/usr/bin/run-js-service" {
        LauncherHelperKeepsLine(line, helper);
      } else {
        NotLauncherAfterRewrite(helper, rest);
      }
    }
  }

  /** With the launcher itself as the helper, the JS rewrite gives back the line. */
  lemma LauncherHelperKeepsLine(line: string, helper: string)
    requires helper == "/usr/bin/run-js-service"
    ensures RewriteJsLine(line, helper) == line
  {
    if JsExec <= line {
      assert ExecKey + helper == JsExec;
      assert line == JsExec + line[|JsExec|..];
    }
  }

  /** A rewritten line does not start with the launcher directive again. */
  lemma NotLauncherAfterRewrite(helper: string, rest: string)
    requires helper != "/usr/bin/run-js-service"
    requires !("/usr/bin/run-js-service" < helper) && !(helper < "/usr/bin/run-js-service")
    ensures !(JsExec <= ExecKey + helper + rest)
  {
    var target := "/usr/bin/run-js-service";
    var r := ExecKey + helper + rest;
    assert JsExec == ExecKey + target;
    var n := if |helper| < |target| then |helper| else |target|;
    var j :| 0 <= j < n && helper[j] != target[j];
    assert r[5 + j] == helper[j];
    assert JsExec[5 + j] == target[j];
  }

  lemma JailerLineIdempotent(line: string)
    ensures RewriteJailerLine(RewriteJailerLine(line)) == RewriteJailerLine(line)
  {
    var r := RewriteJailerLine(line);
    if r != line {
      var x, t :| line == JailerExec + x + " " + t && ' ' !in t && r == ExecKey + t;
      if JailerExec <= r {
        PrefixAt(JailerExec, r, 20);
        assert false;
      }
    }
  }

  /** A line holding the JS marker still holds it after the JS rewrite. */
  lemma JsLineKeepsMarker(line: string, helper: string)
    requires Contains(helper, JsMarker) && Contains(line, JsMarker)
    ensures Contains(RewriteJsLine(line, helper), JsMarker)
  {
    if JsExec <= line {
      var rest := line[|JsExec|..];
      ContainsLeft(helper, rest, JsMarker);
      ContainsRight(ExecKey, helper + rest, JsMarker);
      assert RewriteJsLine(line, helper) == ExecKey + helper + rest;
      assert ExecKey + helper + rest == ExecKey + (helper + rest);
    }
  }

  /** The JS marker survives the JS rewrite. */
  lemma JsKeepsMarker(text: string, helper: string)
    requires SafeHelper(helper) && Contains(text, JsMarker)
    ensures Contains(Patched(text, helper, true), JsMarker)
  {
    var lines := Split(text, '\n');
    var out := MapJs(lines, helper);
    JoinSplit(text, '\n');
    ContainsJoin(lines, '\n', JsMarker);
    var i :| 0 <= i < |lines| && Contains(lines[i], JsMarker);
    JsLineKeepsMarker(lines[i], helper);
    assert Contains(out[i], JsMarker);
    ContainsJoin(out, '\n', JsMarker);
  }

  /** The native rewrite of a line only keeps a suffix of it behind `Exec=`, so
      it adds no occurrence of a pattern that starts with '/'. */
  lemma JailerLineNoNewMarker(line: string, m: string)
    requires m != [] && m[0] == '/' && !Contains(line, m)
    ensures !Contains(RewriteJailerLine(line), m)
  {
    var r := RewriteJailerLine(line);
    if r != line {
      var x, t :| line == JailerExec + x + " " + t && ' ' !in t && r == ExecKey + t;
      if Contains(t, m) {
        ContainsRight(JailerExec + x + " ", t, m);
        assert false;
      }
      if Contains(r, m) {
        assert m[0] !in ExecKey;
        ContainsSkip(ExecKey, t, m);
        assert false;
      }
    }
  }

  /** A text without the JS marker does not gain it from the native rewrite. */
  lemma JailerKeepsNoJsMarker(text: string)
    requires !Contains(text, JsMarker)
    ensures !Contains(Join(MapJailer(Split(text, '\n')), '\n'), JsMarker)
  {
    var lines := Split(text, '\n');
    var out := MapJailer(lines);
    JoinSplit(text, '\n');
    ContainsJoin(lines, '\n', JsMarker);
    ContainsJoin(out, '\n', JsMarker);
    forall i | 0 <= i < |out| ensures !Contains(out[i], JsMarker) {
      JailerLineNoNewMarker(lines[i], JsMarker);
    }
  }

  lemma ScriptedIdempotent(text: string, helper: string)
    requires SafeHelper(helper) && Contains(text, JsMarker)
    ensures !Changed(Patched(text, helper, true), helper, true)
  {
    var lines := Split(text, '\n');
    var out := MapJs(lines, helper);
    var once := Join(out, '\n');
    assert Patched(text, helper, true) == once;
    JsRewriteLines(text, helper);
    JsKeepsMarker(text, helper);
    assert Split(once, '\n') == out;
    forall i | 0 <= i < |out| ensures MapJs(out, helper)[i] == out[i] {
      JsLineIdempotent(lines[i], helper);
    }
    assert MapJs(out, helper) == out;
  }

  lemma NativeIdempotent(text: string)
    requires !Contains(text, JsMarker) && Contains(text, JailerMarker)
    ensures !Changed(Patched(text, "", false), "", false)
  {
    var lines := Split(text, '\n');
    var out := MapJailer(lines);
    var once := Join(out, '\n');
    assert Patched(text, "", false) == once;
    JailerLinesSplit(text);
    JailerKeepsNoJsMarker(text);
    if Contains(once, JailerMarker) {
      assert Split(once, '\n') == out;
      forall i | 0 <= i < |out| ensures MapJailer(out)[i] == out[i] {
        JailerLineIdempotent(lines[i]);
      }
      assert MapJailer(out) == out;
    }
  }

  /** Running the patcher on its own output changes nothing more: the rewrite
      removes what made it apply, or keeps lines that no longer match. */
  lemma PatchIdempotent(text: string, helper: string, helperExists: bool)
    requires SafeHelper(helper)
    ensures !Changed(Patched(text, helper, helperExists), helper, helperExists)
  {
    if Contains(text, JsMarker) {
      if helperExists {
        ScriptedIdempotent(text, helper);
      }
    } else if Contains(text, JailerMarker) {
      NativeIdempotent(text);
      assert Patched(text, helper, helperExists) == Patched(text, "", false);
      var once := Patched(text, helper, helperExists);
      assert !Contains(once, JsMarker) by { JailerKeepsNoJsMarker(text); }
      assert Patched(once, helper, helperExists) == Patched(once, "", false);
    }
  }
}
