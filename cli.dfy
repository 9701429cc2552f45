/**
 * The command-line front end: reading a command line, dispatching it, the
 * read-evaluate loop with its history, the new/skipped split and counters of
 * folder ingestion, and the grouped settings listing. The services it calls
 * (parsing, embedding, indexing, answering) are outside the model: dispatch
 * names the call, and ingestion takes each file's outcome as a parameter.
 */
module Cli {
  import opened Common
  import opened Strings
  import opened Json
  import opened Sorting
  import opened Indexing
  import QaService

  // ---------------------------------------------------------------------------
  // One command line
  // ---------------------------------------------------------------------------

  /** `cmd` and `args` as `run` derives them from a line. */
  datatype Command = Command(cmd: string, args: string)

  /** No character of `s` is white space. */
  predicate NoSpace(d: Dialect, s: string)
  {
    |s| == 0 || (!IsSpace(d, s[0]) && NoSpace(d, s[1..]))
  }

  /** The length of the leading run of non-space characters. */
  function WordEnd(s: string): (k: nat)
    ensures k <= |s|
  {
    if |s| == 0 || IsSpace(Python, s[0]) then 0 else WordEnd(s[1..]) + 1
  }

  /** The leading run holds no white space, and white space (if anything) ends it. */
  lemma {:induction false} WordEndFacts(s: string)
    ensures NoSpace(Python, s[..WordEnd(s)])
    ensures WordEnd(s) < |s| ==> IsSpace(Python, s[WordEnd(s)])
  {
    if |s| > 0 && !IsSpace(Python, s[0]) {
      WordEndFacts(s[1..]);
      assert s[..WordEnd(s)][1..] == s[1..][..WordEnd(s[1..])];
    }
  }

  /** The length of the leading run of white space. */
  function SpaceEnd(s: string): (j: nat)
    ensures j <= |s|
  {
    if |s| == 0 || !IsSpace(Python, s[0]) then 0 else SpaceEnd(s[1..]) + 1
  }

  /** The leading run is all white space, and a non-space character (if anything) ends it. */
  lemma {:induction false} SpaceEndFacts(s: string)
    ensures AllSpace(Python, s[..SpaceEnd(s)])
    ensures SpaceEnd(s) < |s| ==> !IsSpace(Python, s[SpaceEnd(s)])
  {
    if |s| > 0 && IsSpace(Python, s[0]) {
      SpaceEndFacts(s[1..]);
      assert s[..SpaceEnd(s)][1..] == s[1..][..SpaceEnd(s[1..])];
    }
  }

  /**
   * `command = input().strip()`, `parts = command.split(maxsplit=1)`: the first
   * word in lower case, and the rest after the white space that follows it.
   */
  function ParseCommand(line: string): Command
  {
    var command := Strip(Python, line);
    var rest := command[WordEnd(command)..];
    Command(AsciiLower(command[..WordEnd(command)]), rest[SpaceEnd(rest)..])
  }

  /** A blank line gives the empty command and no arguments; any other line a non-empty command. */
  lemma ParseCommandEmptyIff(line: string)
    ensures ParseCommand(line).cmd == "" <==> AllSpace(Python, line)
    ensures AllSpace(Python, line) ==> ParseCommand(line).args == ""
  {
    var command := Strip(Python, line);
    StripEmptyIff(Python, line);
    if command != "" {
      assert WordEnd(command) > 0;
    }
  }

  /**
   * `command` is the word `w`, the white space `sep` and the arguments of `c`;
   * the word holds no white space, and the arguments start with none.
   */
  predicate SplitsAs(command: string, c: Command, w: string, sep: string)
  {
    && command == w + sep + c.args
    && NoSpace(Python, w) && AllSpace(Python, sep)
    && c.cmd == AsciiLower(w)
    && (c.args == "" || (|sep| > 0 && !IsSpace(Python, c.args[0])))
  }

  /** The first word of a stripped line. */
  function Word(command: string): string
  {
    command[..WordEnd(command)]
  }

  /** The white space between the first word and the arguments. */
  function Gap(command: string): string
  {
    var rest := command[WordEnd(command)..];
    rest[..SpaceEnd(rest)]
  }

  /** `split(maxsplit=1)` cuts the stripped line after its first word and the white space after it. */
  lemma ParseCommandSplits(line: string)
    ensures SplitsAs(Strip(Python, line), ParseCommand(line), Word(Strip(Python, line)), Gap(Strip(Python, line)))
  {
    var command := Strip(Python, line);
    var rest := command[WordEnd(command)..];
    assert ParseCommand(line) == Command(AsciiLower(Word(command)), rest[SpaceEnd(rest)..]);
    WordEndFacts(command);
    SpaceEndFacts(rest);
    WordGapArgs(command);
  }

  lemma WordGapArgs(command: string)
    ensures var rest := command[WordEnd(command)..];
            var args := rest[SpaceEnd(rest)..];
            && command == Word(command) + Gap(command) + args
            && (args == "" || (|Gap(command)| > 0 && !IsSpace(Python, args[0])))
  {
    var k := WordEnd(command);
    var rest := command[k..];
    SlicesConcat(command, k, SpaceEnd(rest));
    ArgsStart(command);
  }

  lemma SlicesConcat(s: string, k: nat, j: nat)
    requires k <= |s| && j <= |s| - k
    ensures s == s[..k] + s[k..][..j] + s[k..][j..]
  {
    assert s[k..] == s[k..][..j] + s[k..][j..];
    assert s == s[..k] + s[k..];
  }

  lemma ArgsStart(command: string)
    ensures var rest := command[WordEnd(command)..];
            var args := rest[SpaceEnd(rest)..];
            args == "" || (SpaceEnd(rest) > 0 && !IsSpace(Python, args[0]))
  {
    var k := WordEnd(command);
    var rest := command[k..];
    WordEndFacts(command);
    SpaceEndFacts(rest);
    if k < |command| {
      assert rest[0] == command[k];
    }
  }

  /** Why a command was refused, each with the message `run` prints for it. */
  datatype Refusal = NoFolder | NoQuestion | DevOnlyInvalidate | NoPath | DevOnlyReload

  function RefusalText(r: Refusal): string
  {
    match r
    case NoFolder => "Error: Please specify a folder path"
    case NoQuestion => "Error: Please specify a question"
    case DevOnlyInvalidate => "Invalidate command is only available in development environment"
    case NoPath => "Error: Please specify a file or folder path"
    case DevOnlyReload => "Reload command is only available in development environment"
  }

  const UnknownText: string := "Unknown command. Type 'help' for available commands."

  /** What one command does: the service it calls, or the message it prints instead. */
  datatype Effect =
    | Exit
    | Help
    | Ingest(folder: string)
    | Ask(question: string)
    | Status
    | Invalidate(path: string)
    | Reload
    | Settings
    | Refused(reason: Refusal)
    | Unknown

  /** The line `run` prints for a refused or unknown command, in red. */
  function Message(e: Effect): Option<string>
  {
    match e
    case Refused(r) => Some(QaService.Red + RefusalText(r) + QaService.ResetAll)
    case Unknown => Some(QaService.Red + UnknownText + QaService.ResetAll)
    case _ => None
  }

  /** The `if`/`elif` chain of `run`. */
  function Dispatch(c: Command, isDev: bool): Effect
  {
    match c.cmd
    case "exit" => Exit
    case "help" => Help
    case "ingest" => if c.args == "" then Refused(NoFolder) else Ingest(c.args)
    case "ask" => if c.args == "" then Refused(NoQuestion) else Ask(c.args)
    case "status" => Status
    case "invalidate" =>
      if !isDev then Refused(DevOnlyInvalidate)
      else if c.args == "" then Refused(NoPath)
      else Invalidate(c.args)
    case "reload" => if !isDev then Refused(DevOnlyReload) else Reload
    case "settings" => Settings
    case _ => Unknown
  }

  const KnownCommands: set<string> := {"exit", "help", "ingest", "ask", "status", "invalidate", "reload", "settings"}

  /** Anything else, the empty command of a blank line included, is an unknown command. */
  lemma DispatchUnknown(c: Command, isDev: bool)
    ensures Dispatch(c, isDev).Unknown? <==> c.cmd !in KnownCommands
  {
  }

  /** The service calls, each with the exact command and the non-empty arguments it needs. */
  lemma DispatchCalls(c: Command, isDev: bool)
    ensures Dispatch(c, isDev).Ingest? <==> c.cmd == "ingest" && c.args != ""
    ensures Dispatch(c, isDev).Ask? <==> c.cmd == "ask" && c.args != ""
    ensures Dispatch(c, isDev).Invalidate? <==> isDev && c.cmd == "invalidate" && c.args != ""
    ensures Dispatch(c, isDev).Reload? <==> isDev && c.cmd == "reload"
    ensures Dispatch(c, isDev).Exit? <==> c.cmd == "exit"
    ensures Dispatch(c, isDev).Ingest? ==> Dispatch(c, isDev).folder == c.args
    ensures Dispatch(c, isDev).Ask? ==> Dispatch(c, isDev).question == c.args
    ensures Dispatch(c, isDev).Invalidate? ==> Dispatch(c, isDev).path == c.args
  {
  }

  /** A command missing its arguments calls nothing and says why. */
  lemma MissingArguments(c: Command, isDev: bool)
    requires c.args == "" && c.cmd in {"ingest", "ask", "invalidate"}
    ensures Dispatch(c, isDev).Refused?
  {
  }

  // ---------------------------------------------------------------------------
  // The loop of `run`
  // ---------------------------------------------------------------------------

  /** One line as `run` reads it: stripped, and parsed. */
  function ReadLine(input: string): (string, Command)
  {
    (Strip(Python, input), ParseCommand(input))
  }

  /** What a session has done so far: its effects, the history it recorded, and whether it exited. */
  datatype Trace = Trace(effects: seq<Effect>, recorded: seq<string>, exited: bool)

  /** The line `readline.add_history` records for a stripped line: nothing for a blank one. */
  function HistoryOf(command: string): seq<string>
  {
    if command != "" then [command] else []
  }

  /** Every line of a session as `run` reads it. */
  function ReadLines(inputs: seq<string>): (r: seq<(string, Command)>)
    ensures |r| == |inputs|
    decreases |inputs|
  {
    if |inputs| == 0 then [] else ReadLines(inputs[..|inputs| - 1]) + [ReadLine(inputs[|inputs| - 1])]
  }

  /** The k-th read line is the k-th input, stripped and parsed; reading a prefix reads the prefix. */
  lemma {:induction false} ReadLinesPrefix(inputs: seq<string>, i: nat)
    requires i <= |inputs|
    ensures ReadLines(inputs[..i]) == ReadLines(inputs)[..i]
    decreases |inputs| - i
  {
    if i < |inputs| {
      var pre := inputs[..|inputs| - 1];
      ReadLinesPrefix(pre, i);
      assert pre[..i] == inputs[..i];
    } else {
      assert inputs[..i] == inputs;
    }
  }

  lemma {:induction false} ReadLinesAt(inputs: seq<string>, k: nat)
    requires k < |inputs|
    ensures ReadLines(inputs)[k] == ReadLine(inputs[k])
  {
    ReadLinesPrefix(inputs, k + 1);
    assert inputs[..k + 1][k] == inputs[k];
    assert ReadLines(inputs[..k + 1])[k] == ReadLine(inputs[k]);
  }

  /** One step of `run` after the session so far: a line after the exit is never read. */
  function Step(t: Trace, line: (string, Command), isDev: bool): Trace
  {
    var e := Dispatch(line.1, isDev);
    if t.exited then t else Trace(t.effects + [e], t.recorded + HistoryOf(line.0), e.Exit?)
  }

  /**
   * A session over the lines read so far: each line, until one exits, is
   * recorded (when not blank) and dispatched.
   */
  function Replay(lines: seq<(string, Command)>, isDev: bool): Trace
    decreases |lines|
  {
    if |lines| == 0 then Trace([], [], false)
    else Step(Replay(lines[..|lines| - 1], isDev), lines[|lines| - 1], isDev)
  }

  lemma ReplaySnoc(lines: seq<(string, Command)>, line: (string, Command), isDev: bool)
    ensures Replay(lines + [line], isDev) == Step(Replay(lines, isDev), line, isDev)
  {
    assert (lines + [line])[..|lines|] == lines;
  }

  /** Once a session has exited, further lines change nothing. */
  lemma {:induction false} ReplayStops(lines: seq<(string, Command)>, isDev: bool, i: nat)
    requires i <= |lines| && Replay(lines[..i], isDev).exited
    ensures Replay(lines, isDev) == Replay(lines[..i], isDev)
    decreases |lines| - i
  {
    if i < |lines| {
      assert lines[..|lines| - 1][..i] == lines[..i];
      ReplayStops(lines[..|lines| - 1], isDev, i);
    } else {
      assert lines[..i] == lines;
    }
  }

  function Session(inputs: seq<string>, isDev: bool): seq<Effect>
  {
    Replay(ReadLines(inputs), isDev).effects
  }

  function Recorded(inputs: seq<string>): seq<string>
  {
    Replay(ReadLines(inputs), false).recorded
  }

  lemma ExitIff(c: Command, isDev: bool)
    ensures Dispatch(c, isDev).Exit? <==> c.cmd == "exit"
  {
  }

  /** The history does not depend on the environment: `exit` stops the loop in both. */
  lemma {:induction false} RecordedAnyEnv(lines: seq<(string, Command)>, isDev: bool)
    ensures Replay(lines, isDev).recorded == Replay(lines, false).recorded
    ensures Replay(lines, isDev).exited == Replay(lines, false).exited
  {
    if |lines| > 0 {
      RecordedAnyEnv(lines[..|lines| - 1], isDev);
      ExitIff(lines[|lines| - 1].1, isDev);
      ExitIff(lines[|lines| - 1].1, false);
    }
  }

  /** One effect per line read, and a session that has not exited has read every line. */
  lemma {:induction false} ReplayLength(lines: seq<(string, Command)>, isDev: bool)
    ensures |Replay(lines, isDev).effects| <= |lines|
    ensures !Replay(lines, isDev).exited ==> |Replay(lines, isDev).effects| == |lines|
  {
    if |lines| > 0 {
      ReplayLength(lines[..|lines| - 1], isDev);
    }
  }

  /** The k-th effect is the dispatch of the k-th line. */
  lemma {:induction false} ReplayDispatches(lines: seq<(string, Command)>, isDev: bool, k: nat)
    requires k < |lines| && k < |Replay(lines, isDev).effects|
    ensures Replay(lines, isDev).effects[k] == Dispatch(lines[k].1, isDev)
  {
    ReplayLength(lines, isDev);
    var pre := lines[..|lines| - 1];
    var t := Replay(pre, isDev);
    ReplayLength(pre, isDev);
    if !t.exited && k == |t.effects| {
    } else {
      ReplayDispatches(pre, isDev, k);
      assert pre[k] == lines[k];
    }
  }

  /** The k-th effect of a session is the dispatch of the k-th input as `run` parses it. */
  lemma SessionDispatches(inputs: seq<string>, isDev: bool, k: nat)
    requires k < |Session(inputs, isDev)|
    ensures |Session(inputs, isDev)| <= |inputs|
    ensures Session(inputs, isDev)[k] == Dispatch(ParseCommand(inputs[k]), isDev)
  {
    ReplayLength(ReadLines(inputs), isDev);
    assert k < |ReadLines(inputs)|;
    ReplayDispatches(ReadLines(inputs), isDev, k);
    ReadLinesAt(inputs, k);
  }

  /** A session ends with its exit, and no earlier effect is one. */
  lemma {:induction false} ReplayExitLast(lines: seq<(string, Command)>, isDev: bool)
    ensures Replay(lines, isDev).exited <==> |Replay(lines, isDev).effects| > 0 && Replay(lines, isDev).effects[|Replay(lines, isDev).effects| - 1].Exit?
    ensures forall k :: 0 <= k < |Replay(lines, isDev).effects| - 1 ==> !Replay(lines, isDev).effects[k].Exit?
  {
    if |lines| > 0 {
      ReplayExitLast(lines[..|lines| - 1], isDev);
    }
  }

  /** Outside development, no line ever invalidates documents or reloads the services. */
  lemma {:induction false} ReplayDevOnly(lines: seq<(string, Command)>)
    ensures forall k :: 0 <= k < |Replay(lines, false).effects| ==> !Replay(lines, false).effects[k].Invalidate? && !Replay(lines, false).effects[k].Reload?
  {
    if |lines| > 0 {
      ReplayDevOnly(lines[..|lines| - 1]);
      DispatchCalls(lines[|lines| - 1].1, false);
    }
  }

  /** The stripped, non-blank lines among `lines`, in order. */
  function NonBlank(lines: seq<(string, Command)>): seq<string>
  {
    if |lines| == 0 then [] else NonBlank(lines[..|lines| - 1]) + HistoryOf(lines[|lines| - 1].0)
  }

  /** The history holds exactly the non-blank lines read, the exiting one included. */
  lemma {:induction false} RecordedNonBlank(lines: seq<(string, Command)>)
    ensures |Replay(lines, false).effects| <= |lines|
    ensures Replay(lines, false).recorded == NonBlank(lines[..|Replay(lines, false).effects|])
  {
    ReplayLength(lines, false);
    if |lines| > 0 {
      var pre := lines[..|lines| - 1];
      RecordedNonBlank(pre);
      ReplayLength(pre, false);
      var n := |Replay(pre, false).effects|;
      assert pre[..n] == lines[..n];
      if !Replay(pre, false).exited {
        assert lines[..n + 1][..n] == lines[..n];
      }
    } else {
      assert lines[..0] == [];
    }
  }

  /** The CLI, keeping readline's history of command lines. */
  class Cli {
    var history: seq<string>

    constructor()
      ensures history == []
    {
      history := [];
    }

    /** `run`: read a line, record it, dispatch it, and stop after `exit` or when the lines run out. */
    method Run(inputs: seq<string>, isDev: bool) returns (effects: seq<Effect>)
      modifies this
      ensures effects == Resume(Start, inputs, isDev).effects
      ensures history == old(history) + Resume(Start, inputs, isDev).recorded
    {
      ghost var t := Start;
      effects := [];
      var i := 0;
      var stopped := false;
      while i < |inputs| && !stopped
        invariant 0 <= i <= |inputs|
        invariant Resume(t, inputs[i..], isDev) == Resume(Start, inputs, isDev)
        invariant effects == t.effects && stopped == t.exited
        invariant history == old(history) + t.recorded
      {
        var line, e := Serve(inputs[i], isDev);
        ResumeNext(t, inputs, i, isDev);
        AppendAssoc(old(history), t.recorded, HistoryOf(line.0));
        effects := effects + [e];
        stopped := e.Exit?;
        t := Step(t, line, isDev);
        i := i + 1;
      }
      ResumeDone(t, inputs, i, isDev);
    }

    /** One turn of the loop: strip the line, record it unless blank, parse it and dispatch it. */
    method Serve(input: string, isDev: bool) returns (line: (string, Command), e: Effect)
      modifies this
      ensures line == ReadLine(input) && e == Dispatch(line.1, isDev)
      ensures history == old(history) + HistoryOf(line.0)
    {
      var command := Strip(Python, input);
      if command != "" {
        history := history + [command];
      }
      var c := ParseCommand(input);
      line := (command, c);
      e := Dispatch(c, isDev);
    }
  }

  /** The session before any line is read. */
  const Start := Trace([], [], false)

  /** The rest of a session that has reached `t` and has `inputs` still to read, the way the loop goes on. */
  function Resume(t: Trace, inputs: seq<string>, isDev: bool): Trace
    decreases |inputs|
  {
    if |inputs| == 0 || t.exited then t else Resume(Step(t, ReadLine(inputs[0]), isDev), inputs[1..], isDev)
  }

  lemma ResumeNext(t: Trace, inputs: seq<string>, i: nat, isDev: bool)
    requires i < |inputs| && !t.exited
    ensures Resume(t, inputs[i..], isDev) == Resume(Step(t, ReadLine(inputs[i]), isDev), inputs[i + 1..], isDev)
  {
    assert inputs[i..][0] == inputs[i] && inputs[i..][1..] == inputs[i + 1..];
  }

  lemma ResumeDone(t: Trace, inputs: seq<string>, i: nat, isDev: bool)
    requires i <= |inputs| && (t.exited || i == |inputs|)
    ensures Resume(t, inputs[i..], isDev) == t
  {
  }

  /** Going on from the session of the first `i` lines gives the session of all of them. */
  lemma {:induction false} ResumeIsReplay(inputs: seq<string>, i: nat, isDev: bool)
    requires i <= |inputs|
    ensures Resume(Replay(ReadLines(inputs[..i]), isDev), inputs[i..], isDev) == Replay(ReadLines(inputs), isDev)
    decreases |inputs| - i
  {
    var t := Replay(ReadLines(inputs[..i]), isDev);
    if i == |inputs| {
      assert inputs[..i] == inputs;
    } else if t.exited {
      ExitedStays(inputs, i, isDev);
    } else {
      ResumeNext(t, inputs, i, isDev);
      ReplayReadNext(inputs, i, isDev);
      ResumeIsReplay(inputs, i + 1, isDev);
    }
  }

  lemma ExitedStays(inputs: seq<string>, i: nat, isDev: bool)
    requires i <= |inputs| && Replay(ReadLines(inputs[..i]), isDev).exited
    ensures Resume(Replay(ReadLines(inputs[..i]), isDev), inputs[i..], isDev) == Replay(ReadLines(inputs), isDev)
  {
    ReadLinesPrefix(inputs, i);
    ReplayStops(ReadLines(inputs), isDev, i);
  }

  lemma ReplayReadNext(inputs: seq<string>, i: nat, isDev: bool)
    requires i < |inputs|
    ensures Replay(ReadLines(inputs[..i + 1]), isDev) == Step(Replay(ReadLines(inputs[..i]), isDev), ReadLine(inputs[i]), isDev)
  {
    assert inputs[..i + 1][..i] == inputs[..i];
    assert ReadLines(inputs[..i + 1]) == ReadLines(inputs[..i]) + [ReadLine(inputs[i])];
    ReplaySnoc(ReadLines(inputs[..i]), ReadLine(inputs[i]), isDev);
  }

  /** The loop's session is the session of all the inputs, and its history the history they record. */
  lemma RunIsSession(inputs: seq<string>, isDev: bool)
    ensures Resume(Start, inputs, isDev).effects == Session(inputs, isDev)
    ensures Resume(Start, inputs, isDev).recorded == Recorded(inputs)
  {
    ResumeIsReplay(inputs, 0, isDev);
    assert inputs[..0] == [] && inputs[0..] == inputs;
    RecordedAnyEnv(ReadLines(inputs), isDev);
  }

  lemma PrefixSnoc<T>(s: seq<T>, i: nat)
    requires i < |s|
    ensures s[..i + 1] == s[..i] + [s[i]]
  {
  }

  lemma AppendAssoc<T>(a: seq<T>, b: seq<T>, c: seq<T>)
    ensures a + b + c == a + (b + c)
  {
  }

  // ---------------------------------------------------------------------------
  // Folder ingestion
  // ---------------------------------------------------------------------------

  /** A PDF file of the folder, with the checksum `compute_checksum` gave it. */
  datatype PdfFile = PdfFile(name: string, checksum: string)

  /** The index already holds a document with the file's checksum. */
  predicate Known(f: PdfFile, existing: set<Json>)
  {
    JString(f.checksum) in existing
  }

  /** The files whose checksum is (`known`) or is not (`!known`) in `existing`, in folder order. */
  function Select(files: seq<PdfFile>, existing: set<Json>, known: bool): seq<PdfFile>
  {
    if |files| == 0 then []
    else
      var f := files[|files| - 1];
      Select(files[..|files| - 1], existing, known) + (if Known(f, existing) == known then [f] else [])
  }

  function Names(files: seq<PdfFile>): (r: seq<string>)
    ensures |r| == |files| && forall i :: 0 <= i < |files| ==> r[i] == files[i].name
  {
    seq(|files|, i requires 0 <= i < |files| => files[i].name)
  }

  /** `new_pdfs`: the files to process. */
  function NewPdfs(files: seq<PdfFile>, existing: set<Json>): seq<PdfFile>
  {
    Select(files, existing, false)
  }

  /** `skipped_pdfs`: the names of the files already indexed. */
  function SkippedPdfs(files: seq<PdfFile>, existing: set<Json>): seq<string>
  {
    Names(Select(files, existing, true))
  }

  /** A file is selected exactly when it is in the folder and on the requested side. */
  lemma {:induction false} SelectIff(files: seq<PdfFile>, existing: set<Json>, known: bool, f: PdfFile)
    ensures f in Select(files, existing, known) <==> f in files && Known(f, existing) == known
  {
    if |files| > 0 {
      var pre := files[..|files| - 1];
      SelectIff(pre, existing, known, f);
      assert files == pre + [files[|files| - 1]];
    }
  }

  /** Every file lands on exactly one side: the new and the skipped files add up to the folder. */
  lemma {:induction false} PartitionCounts(files: seq<PdfFile>, existing: set<Json>)
    ensures |NewPdfs(files, existing)| + |SkippedPdfs(files, existing)| == |files|
  {
    if |files| > 0 {
      PartitionCounts(files[..|files| - 1], existing);
    }
  }

  /** The split keeps folder order: splitting two runs of files is splitting each. */
  lemma {:induction false} SelectAppend(a: seq<PdfFile>, b: seq<PdfFile>, existing: set<Json>, known: bool)
    ensures Select(a + b, existing, known) == Select(a, existing, known) + Select(b, existing, known)
    decreases |b|
  {
    if |b| == 0 {
      assert a + b == a;
    } else {
      var b' := b[..|b| - 1];
      assert (a + b)[..|a + b| - 1] == a + b';
      SelectAppend(a, b', existing, known);
    }
  }

  /** When the lookup of existing checksums fails, nothing counts as indexed and every file is processed. */
  lemma {:induction false} SearchFailedAllNew(files: seq<PdfFile>, search: Result<Json, Exception>)
    requires search.Err?
    ensures NewPdfs(files, ExistingChecksums(search)) == files
  {
    if |files| > 0 {
      SearchFailedAllNew(files[..|files| - 1], search);
      assert files == files[..|files| - 1] + [files[|files| - 1]];
    }
  }

  /** The error line for each file that failed, `name: message`, in processing order. */
  function ErrorLines(files: seq<PdfFile>, outcome: PdfFile -> Option<string>): seq<string>
  {
    if |files| == 0 then []
    else
      var f := files[|files| - 1];
      ErrorLines(files[..|files| - 1], outcome)
        + match outcome(f) case None => [] case Some(msg) => [f.name + ": " + msg]
  }

  /** The number of files that were parsed, embedded and indexed without an exception. */
  function Successes(files: seq<PdfFile>, outcome: PdfFile -> Option<string>): nat
  {
    if |files| == 0 then 0
    else Successes(files[..|files| - 1], outcome) + if outcome(files[|files| - 1]).None? then 1 else 0
  }

  /** Every processed file is counted once: as a success or as an error. */
  lemma {:induction false} OutcomeCounts(files: seq<PdfFile>, outcome: PdfFile -> Option<string>)
    ensures Successes(files, outcome) + |ErrorLines(files, outcome)| == |files|
  {
    if |files| > 0 {
      OutcomeCounts(files[..|files| - 1], outcome);
    }
  }

  /** There are no error lines exactly when every file went through. */
  lemma {:induction false} NoErrorsIff(files: seq<PdfFile>, outcome: PdfFile -> Option<string>)
    ensures ErrorLines(files, outcome) == [] <==> forall i :: 0 <= i < |files| ==> outcome(files[i]).None?
  {
    if |files| > 0 {
      var pre := files[..|files| - 1];
      NoErrorsIff(pre, outcome);
      assert forall i :: 0 <= i < |pre| ==> pre[i] == files[i];
    }
  }

  /** The processing loop: one attempt per new file, counting successes and collecting errors. */
  method ProcessAll(newPdfs: seq<PdfFile>, outcome: PdfFile -> Option<string>)
    returns (successCount: nat, errorCount: nat, errors: seq<string>)
    ensures successCount == Successes(newPdfs, outcome)
    ensures errors == ErrorLines(newPdfs, outcome) && errorCount == |errors|
  {
    successCount, errorCount, errors := 0, 0, [];
    for i := 0 to |newPdfs|
      invariant successCount == Successes(newPdfs[..i], outcome)
      invariant errors == ErrorLines(newPdfs[..i], outcome) && errorCount == |errors|
    {
      var f := newPdfs[i];
      assert newPdfs[..i + 1][..i] == newPdfs[..i];
      match outcome(f) {
        case None =>
          successCount := successCount + 1;
        case Some(msg) =>
          errorCount := errorCount + 1;
          errors := errors + [f.name + ": " + msg];
      }
    }
    assert newPdfs[..|newPdfs|] == newPdfs;
  }

  /** What `ingest_folder` reports. */
  datatype IngestReport =
    | FolderMissing
    | NoPdfs
    | NothingNew(found: nat, skipped: seq<string>)
    | Processed(found: nat, skipped: seq<string>, processing: nat, successCount: nat, errorCount: nat, errors: seq<string>)

  /**
   * `ingest_folder`: given whether the folder exists, its PDF files with their
   * checksums, the answer to the existing-checksums query, and what processing
   * each file gives (nothing, or the exception's message).
   */
  function FolderReport(folderExists: bool, files: seq<PdfFile>, search: Result<Json, Exception>,
                        outcome: PdfFile -> Option<string>): IngestReport
  {
    if !folderExists then FolderMissing
    else if |files| == 0 then NoPdfs
    else
      var existing := ExistingChecksums(search);
      var newPdfs := NewPdfs(files, existing);
      var skipped := SkippedPdfs(files, existing);
      if |newPdfs| == 0 then NothingNew(|files|, skipped)
      else
        var errors := ErrorLines(newPdfs, outcome);
        Processed(|files|, skipped, |newPdfs|, Successes(newPdfs, outcome), |errors|, errors)
  }

  method IngestFolder(folderExists: bool, files: seq<PdfFile>, search: Result<Json, Exception>,
                      outcome: PdfFile -> Option<string>) returns (r: IngestReport)
    ensures r == FolderReport(folderExists, files, search, outcome)
  {
    if !folderExists {
      return FolderMissing;
    }
    if |files| == 0 {
      return NoPdfs;
    }
    var existing := ExistingChecksums(search);
    var newPdfs := NewPdfs(files, existing);
    var skipped := SkippedPdfs(files, existing);
    if |newPdfs| == 0 {
      return NothingNew(|files|, skipped);
    }
    var successCount, errorCount, errors := ProcessAll(newPdfs, outcome);
    r := Processed(|files|, skipped, |newPdfs|, successCount, errorCount, errors);
  }

  /**
   * After processing, the successes and the errors add up to the new files, the
   * new and skipped files to the folder; all succeeded exactly when no error was collected.
   */
  lemma IngestCounts(folderExists: bool, files: seq<PdfFile>, search: Result<Json, Exception>,
                     outcome: PdfFile -> Option<string>)
    ensures var r := FolderReport(folderExists, files, search, outcome);
            r.Processed? ==>
              && r.successCount + r.errorCount == r.processing
              && r.processing + |r.skipped| == r.found == |files|
              && (r.successCount == r.processing <==> r.errors == [])
    ensures var r := FolderReport(folderExists, files, search, outcome);
            r.NothingNew? ==> |r.skipped| == r.found == |files| > 0
  {
    var existing := ExistingChecksums(search);
    PartitionCounts(files, existing);
    OutcomeCounts(NewPdfs(files, existing), outcome);
  }

  // ---------------------------------------------------------------------------
  // The settings listing
  // ---------------------------------------------------------------------------

  /** A module-level setting: its name and the text `str` gives its value. */
  type Setting = (string, string)

  /** `str.isupper` on ASCII text: some upper-case letter, and no lower-case one. */
  predicate IsUpper(s: string)
  {
    (exists i :: 0 <= i < |s| && 'A' <= s[i] <= 'Z') && forall i :: 0 <= i < |s| ==> !('a' <= s[i] <= 'z')
  }

  predicate HasPrivatePrefix(name: string)
  {
    |name| >= 8 && name[..8] == "PRIVATE_"
  }

  /** A setting `show_settings` lists: upper case, not `PRIVATE_`-prefixed, not declared private. */
  predicate Shown(name: string, privateSettings: set<string>)
  {
    IsUpper(name) && !HasPrivatePrefix(name) && name !in privateSettings
  }

  /** `config_items`: the listed settings, in the order the module defines them. */
  function ConfigItems(vars: seq<Setting>, privateSettings: set<string>): seq<Setting>
  {
    if |vars| == 0 then []
    else
      var v := vars[|vars| - 1];
      ConfigItems(vars[..|vars| - 1], privateSettings) + if Shown(v.0, privateSettings) then [v] else []
  }

  lemma {:induction false} ConfigItemsIff(vars: seq<Setting>, privateSettings: set<string>, v: Setting)
    ensures v in ConfigItems(vars, privateSettings) <==> v in vars && Shown(v.0, privateSettings)
  {
    if |vars| > 0 {
      var pre := vars[..|vars| - 1];
      ConfigItemsIff(pre, privateSettings, v);
      assert vars == pre + [vars[|vars| - 1]];
    }
  }

  /** The group of a setting: the text before its first `_`, or `MISC` when it has none. */
  function GroupKey(name: string): (g: string)
    ensures '_' in name ==> '_' !in g && |g| < |name| && name == g + "_" + name[|g| + 1..]
    ensures '_' !in name ==> g == "MISC"
  {
    if '_' in name then Split(name, '_')[0] else "MISC"
  }

  /** The settings of one group, in order. */
  function WithKey(items: seq<Setting>, g: string): seq<Setting>
  {
    if |items| == 0 then []
    else
      var v := items[|items| - 1];
      WithKey(items[..|items| - 1], g) + if GroupKey(v.0) == g then [v] else []
  }

  /** The groups in the order their first setting appears: the key order of the `groups` dict. */
  function GroupOrder(items: seq<Setting>): seq<string>
  {
    if |items| == 0 then []
    else
      var order := GroupOrder(items[..|items| - 1]);
      var g := GroupKey(items[|items| - 1].0);
      if g in order then order else order + [g]
  }

  /** The `groups` dict the loop fills: each group's settings, appended in order. */
  function Groups(items: seq<Setting>): map<string, seq<Setting>>
  {
    if |items| == 0 then map[]
    else
      var groups := Groups(items[..|items| - 1]);
      var v := items[|items| - 1];
      var g := GroupKey(v.0);
      if g in groups then groups[g := groups[g] + [v]] else groups[g := [v]]
  }

  /** A group exists exactly when some setting has its key; it holds exactly the settings with that key. */
  lemma {:induction false} GroupsAreFilters(items: seq<Setting>)
    ensures forall g :: g in Groups(items) <==> g in GroupOrder(items)
    ensures forall g :: g in Groups(items) ==> Groups(items)[g] == WithKey(items, g) && Groups(items)[g] != []
    ensures forall g :: g !in Groups(items) ==> WithKey(items, g) == []
  {
    if |items| > 0 {
      var pre := items[..|items| - 1];
      var v := items[|items| - 1];
      var k := GroupKey(v.0);
      GroupsAreFilters(pre);
      forall g
        ensures g in Groups(items) <==> g in GroupOrder(items)
        ensures g in Groups(items) ==> Groups(items)[g] == WithKey(items, g) && Groups(items)[g] != []
        ensures g !in Groups(items) ==> WithKey(items, g) == []
      {
        assert WithKey(items, g) == WithKey(pre, g) + if k == g then [v] else [];
      }
    }
  }

  /** Every setting's group is listed. */
  lemma {:induction false} GroupOrderCovers(items: seq<Setting>)
    ensures forall i :: 0 <= i < |items| ==> GroupKey(items[i].0) in GroupOrder(items)
  {
    if |items| > 0 {
      var pre := items[..|items| - 1];
      GroupOrderCovers(pre);
      assert forall i :: 0 <= i < |pre| ==> pre[i] == items[i];
    }
  }

  /** No group is listed twice. */
  lemma {:induction false} GroupOrderDistinct(items: seq<Setting>)
    ensures forall i, j :: 0 <= i < j < |GroupOrder(items)| ==> GroupOrder(items)[i] != GroupOrder(items)[j]
  {
    if |items| > 0 {
      GroupOrderDistinct(items[..|items| - 1]);
    }
  }

  /** The loop that fills `groups`, setting by setting. */
  method GroupSettings(items: seq<Setting>) returns (groups: map<string, seq<Setting>>, order: seq<string>)
    ensures groups == Groups(items) && order == GroupOrder(items)
  {
    groups, order := map[], [];
    for i := 0 to |items|
      invariant groups == Groups(items[..i]) && order == GroupOrder(items[..i])
    {
      GroupStep(items, i);
      var v := items[i];
      var g := GroupKey(v.0);
      if g in groups {
        groups := groups[g := groups[g] + [v]];
      } else {
        // A new group starts empty and receives the setting.
        groups := groups[g := [v]];
        order := order + [g];
      }
    }
    assert items[..|items|] == items;
  }

  lemma GroupStep(items: seq<Setting>, i: nat)
    requires i < |items|
    ensures var g := GroupKey(items[i].0);
            && (g in Groups(items[..i]) <==> g in GroupOrder(items[..i]))
            && Groups(items[..i + 1]) == (if g in Groups(items[..i]) then Groups(items[..i])[g := Groups(items[..i])[g] + [items[i]]]
                                          else Groups(items[..i])[g := [items[i]]])
            && GroupOrder(items[..i + 1]) == (if g in GroupOrder(items[..i]) then GroupOrder(items[..i]) else GroupOrder(items[..i]) + [g])
  {
    assert items[..i + 1][..i] == items[..i] && items[..i + 1][i] == items[i];
    GroupsAreFilters(items[..i]);
  }

  /** ASCII letters: the characters `str.title` treats as cased here. */
  predicate IsLetter(c: char)
  {
    'A' <= c <= 'Z' || 'a' <= c <= 'z'
  }

  function ToUpper(c: char): char
  {
    if 'a' <= c <= 'z' then (c as int - 32) as char else c
  }

  function ToLower(c: char): char
  {
    if 'A' <= c <= 'Z' then (c as int + 32) as char else c
  }

  function TitleFrom(s: string, afterLetter: bool): (r: string)
    ensures |r| == |s|
  {
    if |s| == 0 then ""
    else [if afterLetter then ToLower(s[0]) else ToUpper(s[0])] + TitleFrom(s[1..], IsLetter(s[0]))
  }

  /** ASCII `str.title()`: a letter that follows a letter in lower case, any other letter in upper case. */
  function Title(s: string): (r: string)
    ensures |r| == |s|
  {
    TitleFrom(s, false)
  }

  lemma {:induction false} TitleFromAt(s: string, afterLetter: bool, i: nat)
    requires i < |s|
    ensures TitleFrom(s, afterLetter)[i] ==
              if (if i == 0 then afterLetter else IsLetter(s[i - 1])) then ToLower(s[i]) else ToUpper(s[i])
  {
    if i > 0 {
      TitleFromAt(s[1..], IsLetter(s[0]), i - 1);
      assert s[1..][i - 1] == s[i];
      if i > 1 {
        assert s[1..][i - 2] == s[i - 1];
      }
    }
  }

  /** Each letter is upper case at the start of a word and lower case inside one; other characters stay. */
  lemma TitleAt(s: string, i: nat)
    requires i < |s|
    ensures Title(s)[i] == if i > 0 && IsLetter(s[i - 1]) then ToLower(s[i]) else ToUpper(s[i])
  {
    TitleFromAt(s, false, i);
  }

  /** Title-casing a title-cased text changes nothing. */
  lemma TitleIdempotent(s: string)
    ensures Title(Title(s)) == Title(s)
  {
    var t := Title(s);
    forall i | 0 <= i < |s|
      ensures Title(t)[i] == t[i]
    {
      TitleAt(s, i);
      TitleAt(t, i);
      if i > 0 {
        TitleAt(s, i - 1);
      }
    }
  }

  /** Every occurrence of `_` in `s` replaced: none is left. */
  lemma {:induction false} ReplaceUnderscores(s: string, rep: string)
    requires '_' !in rep
    ensures '_' !in ReplaceAll(s, "_", rep)
    decreases |s|
  {
    if |s| >= 1 {
      ReplaceUnderscores(s[1..], rep);
    }
  }

  /** The label shown for a setting: its group prefix dropped, `_` as spaces, title-cased. */
  function SettingName(g: string, name: string): string
  {
    Title(ReplaceAll(ReplaceAll(name, g + "_", ""), "_", " "))
  }

  /** A shown label never holds `_`. */
  lemma SettingNameNoUnderscore(g: string, name: string)
    ensures '_' !in SettingName(g, name)
  {
    var spaced := ReplaceAll(ReplaceAll(name, g + "_", ""), "_", " ");
    ReplaceUnderscores(ReplaceAll(name, g + "_", ""), " ");
    forall i | 0 <= i < |spaced|
      ensures Title(spaced)[i] != '_'
    {
      TitleAt(spaced, i);
    }
  }

  /** `sorted` on the `(name, value)` pairs of a group: by name, names being the dict's distinct keys. */
  predicate ItemLe(a: Setting, b: Setting)
  {
    LexLe(a.0, b.0)
  }

  lemma ItemLeIsTotalPreorder()
    ensures TotalPreorder((a: Setting, b: Setting) => ItemLe(a, b))
  {
    forall a: Setting, b: Setting ensures ItemLe(a, b) || ItemLe(b, a) {
      LexLeTotal(a.0, b.0);
    }
    forall a: Setting, b: Setting, c: Setting | ItemLe(a, b) && ItemLe(b, c) ensures ItemLe(a, c) {
      LexLeTrans(a.0, b.0, c.0);
    }
  }

  function SortedKeys(items: seq<Setting>): seq<string>
  {
    Sort(GroupOrder(items), (a: string, b: string) => LexLe(a, b))
  }

  function SortedItems(group: seq<Setting>): seq<Setting>
  {
    Sort(group, (a: Setting, b: Setting) => ItemLe(a, b))
  }

  /** The groups are listed in ascending order. */
  lemma KeysSorted(items: seq<Setting>)
    ensures SortedBy(SortedKeys(items), (a: string, b: string) => LexLe(a, b))
  {
    LexLeIsTotalPreorder();
    SortSorted(GroupOrder(items), (a: string, b: string) => LexLe(a, b));
  }

  /** The listed groups are exactly the groups. */
  lemma KeysAreGroups(items: seq<Setting>)
    ensures forall k :: k in SortedKeys(items) <==> k in Groups(items)
  {
    GroupsAreFilters(items);
    forall k ensures k in SortedKeys(items) <==> k in GroupOrder(items) {
      assert k in multiset(SortedKeys(items)) <==> k in multiset(GroupOrder(items));
    }
  }

  /** No group is listed twice. */
  lemma KeysDistinct(items: seq<Setting>)
    ensures forall i, j :: 0 <= i < j < |SortedKeys(items)| ==> SortedKeys(items)[i] != SortedKeys(items)[j]
  {
    var keys := SortedKeys(items);
    GroupOrderDistinct(items);
    forall i, j | 0 <= i < j < |keys| ensures keys[i] != keys[j] {
      if keys[i] == keys[j] {
        RepeatCount(keys, i, j);
        DistinctCount(GroupOrder(items), keys[i]);
        assert false;
      }
    }
  }

  /** A group's settings are listed by name, and are exactly the settings of that group. */
  lemma ItemsSorted(items: seq<Setting>, g: string)
    requires g in Groups(items)
    ensures SortedBy(SortedItems(Groups(items)[g]), (a: Setting, b: Setting) => ItemLe(a, b))
    ensures multiset(SortedItems(Groups(items)[g])) == multiset(WithKey(items, g))
  {
    ItemLeIsTotalPreorder();
    GroupsAreFilters(items);
    SortSorted(Groups(items)[g], (a: Setting, b: Setting) => ItemLe(a, b));
  }

  /** An element at two positions occurs at least twice. */
  lemma RepeatCount(xs: seq<string>, i: nat, j: nat)
    requires i < j < |xs| && xs[i] == xs[j]
    ensures multiset(xs)[xs[i]] >= 2
  {
    assert xs == xs[..j] + xs[j..];
    assert xs[..j][i] == xs[i] && xs[j..][0] == xs[j];
    assert multiset(xs) == multiset(xs[..j]) + multiset(xs[j..]);
  }

  /** In a list without repeats, an element occurs at most once. */
  lemma {:induction false} DistinctCount(xs: seq<string>, x: string)
    requires forall i, j :: 0 <= i < j < |xs| ==> xs[i] != xs[j]
    ensures multiset(xs)[x] <= 1
  {
    if |xs| > 0 {
      var pre := xs[..|xs| - 1];
      DistinctCount(pre, x);
      assert xs == pre + [xs[|xs| - 1]];
      if xs[|xs| - 1] == x {
        assert x !in pre;
      }
    }
  }

  const SettingsHeader: string := "\n" + QaService.Cyan + "Current Configuration:" + QaService.ResetAll

  function GroupHeader(g: string): string
  {
    "\n" + QaService.Cyan + g + " Settings:" + QaService.ResetAll
  }

  function ItemLine(g: string, v: Setting): string
  {
    "  " + SettingName(g, v.0) + ": " + v.1
  }

  /** The lines printed for the settings of group `g`, in the given order. */
  function ItemLines(g: string, group: seq<Setting>): (r: seq<string>)
    ensures |r| == |group| && forall i :: 0 <= i < |group| ==> r[i] == ItemLine(g, group[i])
  {
    seq(|group|, i requires 0 <= i < |group| => ItemLine(g, group[i]))
  }

  /** The lines printed for one group: its header, then its settings sorted. */
  function Block(g: string, group: seq<Setting>): seq<string>
  {
    [GroupHeader(g)] + ItemLines(g, SortedItems(group))
  }

  /** The lines printed for the groups `keys`, one block each. */
  function GroupBlocks(keys: seq<string>, groups: map<string, seq<Setting>>): seq<string>
    requires forall k :: k in keys ==> k in groups
  {
    if |keys| == 0 then []
    else
      var g := keys[|keys| - 1];
      GroupBlocks(keys[..|keys| - 1], groups) + Block(g, groups[g])
  }

  /** Everything `show_settings` prints, one string per `print` call. */
  function SettingsOutput(vars: seq<Setting>, privateSettings: set<string>): seq<string>
  {
    var items := ConfigItems(vars, privateSettings);
    KeysAreGroups(items);
    [SettingsHeader] + GroupBlocks(SortedKeys(items), Groups(items)) + [""]
  }

  /** `show_settings`: filter the settings, group them in a loop, and print the groups and their settings sorted. */
  method ShowSettings(vars: seq<Setting>, privateSettings: set<string>) returns (out: seq<string>)
    ensures out == SettingsOutput(vars, privateSettings)
  {
    var items := ConfigItems(vars, privateSettings);
    var groups, order := GroupSettings(items);
    KeysAreGroups(items);
    var keys := Sort(order, (a: string, b: string) => LexLe(a, b));
    var blocks := [];
    for i := 0 to |keys|
      invariant blocks == GroupBlocks(keys[..i], groups)
    {
      assert keys[..i + 1][..i] == keys[..i];
      var lines := PrintGroup(keys[i], groups[keys[i]]);
      blocks := blocks + lines;
    }
    assert keys[..|keys|] == keys;
    out := [SettingsHeader] + blocks + [""];
  }

  /** The inner loop: a group's header, then one line per setting in sorted order. */
  method PrintGroup(g: string, group: seq<Setting>) returns (lines: seq<string>)
    ensures lines == Block(g, group)
  {
    lines := [GroupHeader(g)];
    var sortedItems := SortedItems(group);
    for j := 0 to |sortedItems|
      invariant lines == [GroupHeader(g)] + ItemLines(g, sortedItems)[..j]
    {
      assert ItemLines(g, sortedItems)[..j + 1] == ItemLines(g, sortedItems)[..j] + [ItemLine(g, sortedItems[j])];
      lines := lines + [ItemLine(g, sortedItems[j])];
    }
    assert ItemLines(g, sortedItems)[..|sortedItems|] == ItemLines(g, sortedItems);
  }
}
