/** `jContainer.management.TerminalManager`: runs `bash -c` commands in a
    working directory, collects their outputs and masks the AWS credentials
    in the echoed command line. */
module Terminal {
  import opened Wrappers
  import opened Text
  import opened Constants
  import opened World

  /** Appended to the output of a process that exits with a non-zero code. */
  const ErrorMarker := "Error: Something happened here :D"

  /** The single output reported when no command is given. */
  const NoCommands := "Error"

  /** `handleOutput`: the stdout lines, each followed by a line feed, or the
      stderr lines that way when stdout is empty. While stdout still has
      lines the stderr reader is not consulted, and the line feeds it
      collects meanwhile are discarded with the stderr text. */
  function HandleOutput(p: Process): string {
    if |p.stdout| > 0 then Unlines(p.stdout) else Unlines(p.stderr)
  }

  /** Reading the text back line by line recovers the stream it came from. */
  lemma HandleOutputLines(p: Process)
    requires forall i :: 0 <= i < |p.stdout| ==> '\n' !in p.stdout[i]
    requires forall i :: 0 <= i < |p.stderr| ==> '\n' !in p.stderr[i]
    ensures |p.stdout| > 0 ==> Split(HandleOutput(p), '\n') == p.stdout + [[]]
    ensures |p.stdout| == 0 ==> Split(HandleOutput(p), '\n') == p.stderr + [[]]
    ensures HandleOutput(p) == [] <==> |p.stdout| == 0 && |p.stderr| == 0
  {
    UnlinesSplit(p.stdout);
    UnlinesSplit(p.stderr);
  }

  /** `executeOneCommand`: the handled output, with the error marker after
      it when the exit code is not zero. */
  function CommandOutput(p: Process): (r: string)
    ensures r == [] <==> |p.stdout| == 0 && |p.stderr| == 0 && p.exitCode == 0
    ensures p.exitCode != 0 <==> |r| >= |ErrorMarker| && r[|r| - |ErrorMarker|..] == ErrorMarker
    ensures p.exitCode == 0 ==> r == HandleOutput(p)
    ensures HandleOutput(p) <= r
  {
    var handled := HandleOutput(p);
    assert handled == [] || handled[|handled| - 1] == '\n';
    assert ErrorMarker[|ErrorMarker| - 1] == 'D';
    handled + if p.exitCode != 0 then ErrorMarker else []
  }

  /** The events of running `commands` one after the other in `dir`. */
  function ShellEvents(dir: string, commands: seq<string>): (r: seq<Event>)
    ensures |r| == |commands|
  {
    if |commands| == 0 then [] else [Shell(dir, commands[0])] + ShellEvents(dir, commands[1..])
  }

  lemma {:induction false} ShellEventsAppend(dir: string, a: seq<string>, b: seq<string>)
    ensures ShellEvents(dir, a + b) == ShellEvents(dir, a) + ShellEvents(dir, b)
    decreases |a|
  {
    if |a| > 0 {
      assert (a + b)[0] == a[0] && (a + b)[1..] == a[1..] + b;
      ShellEventsAppend(dir, a[1..], b);
    } else {
      assert a + b == b;
    }
  }

  /** One event per command, in the order of the commands. */
  lemma {:induction false} ShellEventsAt(dir: string, commands: seq<string>)
    ensures forall i :: 0 <= i < |commands| ==> ShellEvents(dir, commands)[i] == Shell(dir, commands[i])
    decreases |commands|
  {
    if |commands| > 0 {
      ShellEventsAt(dir, commands[1..]);
    }
  }

  /** The output of every command, each run after the history `h` and the
      commands before it. */
  function RawOutputs(run: (seq<Event>, string, string) -> Process, h: seq<Event>, dir: string, commands: seq<string>): (r: seq<string>)
    ensures |r| == |commands|
    decreases |commands|
  {
    if |commands| == 0 then []
    else [CommandOutput(run(h, dir, commands[0]))] + RawOutputs(run, h + [Shell(dir, commands[0])], dir, commands[1..])
  }

  lemma RawOutputsTail(run: (seq<Event>, string, string) -> Process, h: seq<Event>, dir: string, commands: seq<string>, i: nat)
    requires 0 < i < |commands|
    ensures RawOutputs(run, h, dir, commands)[i] == RawOutputs(run, h + [Shell(dir, commands[0])], dir, commands[1..])[i - 1]
  {
  }

  lemma ShellHistoryStep(h: seq<Event>, dir: string, commands: seq<string>, i: nat)
    requires 0 < i <= |commands|
    ensures h + ShellEvents(dir, commands[..i]) == h + [Shell(dir, commands[0])] + ShellEvents(dir, commands[1..][..i - 1])
  {
    assert commands[..i] == [commands[0]] + commands[1..][..i - 1];
    ShellEventsAppend(dir, [commands[0]], commands[1..][..i - 1]);
  }

  /** The `i`-th command sees exactly the history followed by the commands
      issued before it. */
  lemma {:induction false} RawOutputAt(run: (seq<Event>, string, string) -> Process, h: seq<Event>, dir: string, commands: seq<string>, i: nat)
    requires i < |commands|
    ensures RawOutputs(run, h, dir, commands)[i] == CommandOutput(run(h + ShellEvents(dir, commands[..i]), dir, commands[i]))
    decreases i
  {
    if i == 0 {
      assert h + ShellEvents(dir, commands[..i]) == h;
    } else {
      var h' := h + [Shell(dir, commands[0])];
      RawOutputsTail(run, h, dir, commands, i);
      RawOutputAt(run, h', dir, commands[1..], i - 1);
      ShellHistoryStep(h, dir, commands, i);
      assert commands[1..][i - 1] == commands[i];
      assert h + ShellEvents(dir, commands[..i]) == h' + ShellEvents(dir, commands[1..][..i - 1]);
    }
  }

  predicate NonEmpty(s: string) {
    |s| > 0
  }

  /** The outputs `executeCommand` keeps: the non-empty ones, in order. */
  function Reported(run: (seq<Event>, string, string) -> Process, h: seq<Event>, dir: string, commands: seq<string>): seq<string>
    decreases |commands|
  {
    if |commands| == 0 then []
    else
      var o := CommandOutput(run(h, dir, commands[0]));
      (if o != [] then [o] else []) + Reported(run, h + [Shell(dir, commands[0])], dir, commands[1..])
  }

  /** Keeping the non-empty outputs is filtering the outputs of all commands. */
  lemma {:induction false} ReportedIsFilter(run: (seq<Event>, string, string) -> Process, h: seq<Event>, dir: string, commands: seq<string>)
    ensures Reported(run, h, dir, commands) == Filter(RawOutputs(run, h, dir, commands), NonEmpty)
    decreases |commands|
  {
    if |commands| > 0 {
      var h' := h + [Shell(dir, commands[0])];
      ReportedIsFilter(run, h', dir, commands[1..]);
      FilterCons(CommandOutput(run(h, dir, commands[0])), RawOutputs(run, h', dir, commands[1..]), NonEmpty);
    }
  }

  /** `executeCommand`: the commands run in order in `dir`; the reported
      outputs are the non-empty ones, in order, or the single `"Error"` when
      there is no command. */
  function ExecuteCommand(run: (seq<Event>, string, string) -> Process, h: seq<Event>, dir: string, commands: seq<string>): (r: Shelled)
    ensures |r.events| == |commands| && forall i :: 0 <= i < |commands| ==> r.events[i] == Shell(dir, commands[i])
    ensures |commands| == 0 ==> r.outputs == [NoCommands]
    ensures |commands| > 0 ==>
      |r.outputs| <= |commands| &&
      (forall i :: 0 <= i < |r.outputs| ==> r.outputs[i] != []) &&
      Subsequence(r.outputs, RawOutputs(run, h, dir, commands)) &&
      (forall o :: o in r.outputs <==> o in RawOutputs(run, h, dir, commands) && o != [])
    ensures |commands| > 0 ==> |r.outputs| == Count(RawOutputs(run, h, dir, commands), NonEmpty)
  {
    ReportedIsFilter(run, h, dir, commands);
    FilterCount(RawOutputs(run, h, dir, commands), NonEmpty);
    ShellEventsAt(dir, commands);
    Shelled(ShellEvents(dir, commands),
            if |commands| == 0 then [NoCommands] else Reported(run, h, dir, commands))
  }

  /** The reported outputs of a non-empty batch are exactly the non-empty
      outputs of all its commands, in order, each as often as it occurs. */
  lemma ExecuteCommandIsFilter(run: (seq<Event>, string, string) -> Process, h: seq<Event>, dir: string, commands: seq<string>)
    requires |commands| > 0
    ensures ExecuteCommand(run, h, dir, commands).outputs == Filter(RawOutputs(run, h, dir, commands), NonEmpty)
  {
    ReportedIsFilter(run, h, dir, commands);
  }

  /** Two commands report their outputs that are not empty, in order, the
      second one seeing the first one's run. */
  lemma TwoCommands(run: (seq<Event>, string, string) -> Process, h: seq<Event>, dir: string, a: string, b: string)
    ensures var oa := CommandOutput(run(h, dir, a));
      var ob := CommandOutput(run(h + [Shell(dir, a)], dir, b));
      ExecuteCommand(run, h, dir, [a, b]) ==
        Shelled([Shell(dir, a), Shell(dir, b)], (if oa != [] then [oa] else []) + (if ob != [] then [ob] else []))
  {
    var commands := [a, b];
    var oa := CommandOutput(run(h, dir, a));
    var ob := CommandOutput(run(h + [Shell(dir, a)], dir, b));
    assert commands[0] == a && commands[1..] == [b] && [b][1..] == [];
    ReportedUnfold(run, h, dir, commands);
    ReportedUnfold(run, h + [Shell(dir, a)], dir, [b]);
    assert Reported(run, h, dir, commands) == (if oa != [] then [oa] else []) + (if ob != [] then [ob] else []);
    ShellEventsAt(dir, commands);
    assert ShellEvents(dir, commands) == [Shell(dir, a), Shell(dir, b)];
  }

  /** A single command reports its output exactly when that output is not
      empty. */
  lemma SingleCommand(run: (seq<Event>, string, string) -> Process, h: seq<Event>, dir: string, command: string)
    ensures var o := CommandOutput(run(h, dir, command));
      ExecuteCommand(run, h, dir, [command]) == Shelled([Shell(dir, command)], if o != [] then [o] else [])
  {
    assert [command][1..] == [];
    assert ShellEvents(dir, [command]) == [Shell(dir, command)] + ShellEvents(dir, []);
    assert Reported(run, h + [Shell(dir, command)], dir, []) == [];
  }

  /** Some output is reported exactly when some command produces a
      non-empty output. */
  lemma ReportsSomething(run: (seq<Event>, string, string) -> Process, h: seq<Event>, dir: string, commands: seq<string>)
    requires |commands| > 0
    ensures |ExecuteCommand(run, h, dir, commands).outputs| > 0 <==>
      exists i :: 0 <= i < |commands| && CommandOutput(run(h + ShellEvents(dir, commands[..i]), dir, commands[i])) != []
  {
    var raw := RawOutputs(run, h, dir, commands);
    var outputs := ExecuteCommand(run, h, dir, commands).outputs;
    if |outputs| > 0 {
      assert outputs[0] in outputs;
      var i :| 0 <= i < |raw| && raw[i] == outputs[0];
      RawOutputAt(run, h, dir, commands, i);
    }
    if exists i :: 0 <= i < |commands| && CommandOutput(run(h + ShellEvents(dir, commands[..i]), dir, commands[i])) != [] {
      var i :| 0 <= i < |commands| && CommandOutput(run(h + ShellEvents(dir, commands[..i]), dir, commands[i])) != [];
      RawOutputAt(run, h, dir, commands, i);
      assert raw[i] in raw;
    }
  }

  /** A command that fails always leaves a report, ending in the error
      marker. */
  lemma FailedCommandReported(run: (seq<Event>, string, string) -> Process, h: seq<Event>, dir: string, commands: seq<string>, i: nat)
    requires i < |commands|
    requires run(h + ShellEvents(dir, commands[..i]), dir, commands[i]).exitCode != 0
    ensures exists o :: (o in ExecuteCommand(run, h, dir, commands).outputs &&
      |o| >= |ErrorMarker| && o[|o| - |ErrorMarker|..] == ErrorMarker)
  {
    RawOutputAt(run, h, dir, commands, i);
    var o := RawOutputs(run, h, dir, commands)[i];
    assert o in RawOutputs(run, h, dir, commands);
    assert o in ExecuteCommand(run, h, dir, commands).outputs;
  }

  /** `Reported` of a non-empty list: the first output, when not empty,
      then the outputs of the rest. */
  lemma ReportedUnfold(run: (seq<Event>, string, string) -> Process, h: seq<Event>, dir: string, commands: seq<string>)
    requires |commands| > 0
    ensures var o := CommandOutput(run(h, dir, commands[0]));
      Reported(run, h, dir, commands) == (if o != [] then [o] else []) + Reported(run, h + [Shell(dir, commands[0])], dir, commands[1..])
  {
  }

  /** One more command moves its output, when not empty, to the reported
      ones. */
  lemma ReportedStep(run: (seq<Event>, string, string) -> Process, h: seq<Event>, events: seq<Event>, dir: string, commands: seq<string>, i: nat, outputs: seq<string>)
    requires i < |commands|
    requires outputs + Reported(run, h + events, dir, commands[i..]) == Reported(run, h, dir, commands)
    ensures var o := CommandOutput(run(h + events, dir, commands[i]));
      (outputs + if o != [] then [o] else []) + Reported(run, h + (events + [Shell(dir, commands[i])]), dir, commands[i + 1..])
      == Reported(run, h, dir, commands)
  {
    var o := CommandOutput(run(h + events, dir, commands[i]));
    var kept := if o != [] then [o] else [];
    var later := Reported(run, h + (events + [Shell(dir, commands[i])]), dir, commands[i + 1..]);
    assert Reported(run, h + events, dir, commands[i..]) == kept + later by {
      var rest := commands[i..];
      assert rest[0] == commands[i] && rest[1..] == commands[i + 1..];
      assert h + events + [Shell(dir, commands[i])] == h + (events + [Shell(dir, commands[i])]);
      ReportedUnfold(run, h + events, dir, rest);
    }
    RegroupOutputs(outputs, Reported(run, h + events, dir, commands[i..]), kept, later, Reported(run, h, dir, commands));
  }

  /** Splitting the pending part of a sequence moves its head to the done
      part. */
  lemma RegroupOutputs(done: seq<string>, pending: seq<string>, head: seq<string>, rest: seq<string>, whole: seq<string>)
    requires done + pending == whole && pending == head + rest
    ensures (done + head) + rest == whole
  {
    assert (done + head) + rest == done + (head + rest);
  }

  /** One more command adds its event to the issued ones. */
  lemma ShellEventsStep(dir: string, commands: seq<string>, i: nat)
    requires i < |commands|
    ensures ShellEvents(dir, commands[..i]) + [Shell(dir, commands[i])] == ShellEvents(dir, commands[..i + 1])
  {
    ShellEventsAppend(dir, commands[..i], [commands[i]]);
    assert commands[..i + 1] == commands[..i] + [commands[i]];
    assert ShellEvents(dir, [commands[i]]) == [Shell(dir, commands[i])] + ShellEvents(dir, []);
  }

  /** Before the first command nothing is issued or reported. */
  lemma ReportedStart(run: (seq<Event>, string, string) -> Process, h: seq<Event>, dir: string, commands: seq<string>)
    ensures [] == ShellEvents(dir, commands[..0])
    ensures [] + Reported(run, h + [], dir, commands[0..]) == Reported(run, h, dir, commands)
  {
    assert h + [] == h && commands[0..] == commands;
  }

  /** The loop of `executeCommand`, one command at a time. */
  method ExecuteCommandLoop(run: (seq<Event>, string, string) -> Process, h: seq<Event>, dir: string, commands: seq<string>)
    returns (events: seq<Event>, outputs: seq<string>)
    ensures Shelled(events, outputs) == ExecuteCommand(run, h, dir, commands)
  {
    if |commands| == 0 {
      return [], [NoCommands];
    }
    events, outputs := [], [];
    var i := 0;
    ReportedStart(run, h, dir, commands);
    while i < |commands|
      invariant 0 <= i <= |commands|
      invariant events == ShellEvents(dir, commands[..i])
      invariant outputs + Reported(run, h + events, dir, commands[i..]) == Reported(run, h, dir, commands)
    {
      var output := CommandOutput(run(h + events, dir, commands[i]));
      ReportedStep(run, h, events, dir, commands, i, outputs);
      ShellEventsStep(dir, commands, i);
      outputs := outputs + if output != [] then [output] else [];
      events := events + [Shell(dir, commands[i])];
      i := i + 1;
    }
    assert commands[..i] == commands;
    assert Reported(run, h + events, dir, commands[i..]) == [];
    assert outputs + [] == outputs;
  }

  /** Java's `matches` with `.*` on each side: `.` stops at line
      terminators, so only a single-line command can match. */
  predicate IsLineTerminator(c: char) {
    c == '\n' || c == '\r' || c as int == 0x85 || c as int == 0x2028 || c as int == 0x2029
  }

  /** The four alternatives of the sensitive-data pattern: each keyword and
      each key, with `.*` on both sides. */
  function SensitiveAlternatives(c: Config): seq<string> {
    [".*aws_access_key_id.*", ".*" + c.awsAccessKey + ".*",
     ".*aws_secret_access_key.*", ".*" + c.awsSecretKey + ".*"]
  }

  /** `getSensitiveDataRegex`: the alternatives joined with `|`. */
  function SensitiveDataRegex(c: Config): string {
    Join(SensitiveAlternatives(c), '|')
  }

  /** The pattern falls apart at `|` into exactly the four alternatives, in
      order, as long as neither key holds a `|`. */
  lemma SensitiveDataRegexAlternatives(c: Config)
    requires '|' !in c.awsAccessKey && '|' !in c.awsSecretKey
    ensures Split(SensitiveDataRegex(c), '|') == SensitiveAlternatives(c)
    ensures |Split(SensitiveDataRegex(c), '|')| == 4
  {
    var alts := SensitiveAlternatives(c);
    assert '|' !in alts[0] && '|' !in alts[2];
    assert '|' !in alts[1] && '|' !in alts[3];
    SplitJoin(alts, '|');
  }

  /** Whether a key stands for itself inside the pattern: it holds none of
      the characters a Java regular expression gives a meaning to. */
  predicate RegexLiteral(k: string) {
    forall i :: 0 <= i < |k| ==> k[i] !in "\\.[]{}()*+?^$|"
  }

  /** Whether the echoed command is masked: it is one line and mentions one
      of the two credential keywords or one of the two keys. The keys are
      read literally, which is what the pattern does for keys that are
      `RegexLiteral`. */
  predicate Sensitive(c: Config, command: string) {
    (forall i :: 0 <= i < |command| ==> !IsLineTerminator(command[i])) &&
    (Contains(command, "aws_access_key_id") || Contains(command, c.awsAccessKey) ||
     Contains(command, "aws_secret_access_key") || Contains(command, c.awsSecretKey))
  }

  /** The command as echoed before it runs: a sensitive command has every
      access key and then every secret key replaced by the mask. */
  function CommandToPrint(c: Config, command: string): (r: string)
    ensures !Sensitive(c, command) ==> r == command
  {
    if Sensitive(c, command)
    then Replace(Replace(command, c.awsAccessKey, Mask), c.awsSecretKey, Mask)
    else command
  }

  /** No single-line command echoes a key, for keys that are non-empty and
      free of the mask character and of regex metacharacters. */
  lemma CommandToPrintHidesKeys(c: Config, command: string)
    requires |c.awsAccessKey| > 0 && '*' !in c.awsAccessKey && RegexLiteral(c.awsAccessKey)
    requires |c.awsSecretKey| > 0 && '*' !in c.awsSecretKey && RegexLiteral(c.awsSecretKey)
    requires forall i :: 0 <= i < |command| ==> !IsLineTerminator(command[i])
    ensures !Contains(CommandToPrint(c, command), c.awsAccessKey)
    ensures !Contains(CommandToPrint(c, command), c.awsSecretKey)
  {
    if Sensitive(c, command) {
      var once := Replace(command, c.awsAccessKey, Mask);
      MaskRemoves(command, c.awsAccessKey);
      MaskPreservesAbsence(once, c.awsSecretKey, c.awsAccessKey);
      MaskRemoves(once, c.awsSecretKey);
    }
  }

  /** A command spanning several lines is echoed unmasked, key included. */
  lemma MultiLineCommandEchoedVerbatim(c: Config, command: string, k: nat)
    requires k < |command| && IsLineTerminator(command[k])
    ensures CommandToPrint(c, command) == command
  {
  }
}
