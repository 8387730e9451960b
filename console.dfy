/** The command console page (`ConsoleManager`): the command history and its cursor,
    the bounded terminal, command execution with its interactive (ssh) mode, the
    extraction of the generated text from an inference run's output, and the file
    explorer's reading of `ls -la` output. */
module Console {
  import opened Wrappers
  import opened Strings
  import Common

  const MaxHistorySize: nat := 100
  const MaxOutputLines: nat := 1000
  /** The request timeout of `executeCommand`, in milliseconds. */
  const ExecuteTimeout: nat := 30000

  // ---------------------------------------------------------------------------
  // Command history

  /** The history after recording command `c`: `c` goes in front unless it is already
      the most recent entry, and the oldest entry is dropped beyond 100. */
  function Recorded(history: seq<string>, c: string): (r: seq<string>)
    ensures r != [] && r[0] == c
    ensures history != [] && history[0] == c ==> r == history
    ensures !(history != [] && history[0] == c) ==>
              |r| <= |history| + 1 && r[1..] == history[..|r| - 1]
    ensures |history| < MaxHistorySize ==> |r| == |history| + 1 || r == history
    ensures !(history != [] && history[0] == c) ==>
              |r| == (if |history| + 1 > MaxHistorySize then |history| else |history| + 1)
    ensures |history| <= MaxHistorySize ==> |r| <= MaxHistorySize
  {
    if history != [] && history[0] == c then history
    else
      var h := [c] + history;
      if |h| > MaxHistorySize then h[..|h| - 1] else h
  }

  /** Recording the same command twice records it once. */
  lemma RecordedIdempotent(history: seq<string>, c: string)
    ensures Recorded(Recorded(history, c), c) == Recorded(history, c)
  {
  }

  /** The cursor after one step through a non-empty history: up (`direction > 0`)
      towards older entries, stopping at the oldest; down towards -1, the empty input. */
  function Stepped(index: int, size: nat, direction: int): (r: int)
    requires size > 0 && -1 <= index < size
    ensures -1 <= r < size
    ensures direction > 0 ==> r == index + 1 || (r == index && index == size - 1)
    ensures direction <= 0 ==> r == index - 1 || (r == index && index == -1)
  {
    if direction > 0 then (if index + 1 < size - 1 then index + 1 else size - 1)
    else (if index - 1 > -1 then index - 1 else -1)
  }

  /** A step up followed by a step down returns to the same entry, unless the first
      step was stopped at the oldest one; and the other way round. */
  lemma SteppedRoundTrip(index: int, size: nat)
    requires size > 0 && -1 <= index < size
    ensures index < size - 1 ==> Stepped(Stepped(index, size, 1), size, -1) == index
    ensures index >= 0 ==> Stepped(Stepped(index, size, -1), size, 1) == index
  {
  }

  /** What the browser's storage holds under `commandHistory`. */
  datatype Stored = Missing | Unparsable | NotAnArray | Commands(items: seq<string>)

  /** The history `loadCommandHistory` leaves: the stored array cut to its first 100
      commands, an empty one for a value that is not an array or does not parse, and the
      current one when nothing is stored. */
  function LoadedHistory(current: seq<string>, stored: Stored): (r: seq<string>)
    ensures stored.Missing? ==> r == current
    ensures stored.Unparsable? || stored.NotAnArray? ==> r == []
    ensures stored.Commands? ==> |r| <= MaxHistorySize && |r| <= |stored.items| && r == stored.items[..|r|]
    ensures stored.Commands? && |stored.items| >= MaxHistorySize ==> |r| == MaxHistorySize
  {
    match stored
    case Missing => current
    case Unparsable => []
    case NotAnArray => []
    case Commands(items) => if |items| > MaxHistorySize then items[..MaxHistorySize] else items
  }

  /** A history of at most 100 commands survives a save and a reload unchanged. */
  lemma SaveLoadRoundTrip(current: seq<string>, history: seq<string>)
    requires |history| <= MaxHistorySize
    ensures LoadedHistory(current, Commands(history)) == history
  {
  }

  // ---------------------------------------------------------------------------
  // The terminal

  datatype LineKind = Plain | Error | Highlight | Info
  datatype TerminalLine = TerminalLine(text: string, kind: LineKind)

  /** The last `n` lines of `lines` (all of them when there are fewer). */
  function LastLines(lines: seq<TerminalLine>, n: nat): (r: seq<TerminalLine>)
    ensures |r| == if |lines| <= n then |lines| else n
    ensures r == lines[|lines| - |r|..]
  {
    if |lines| <= n then lines else lines[|lines| - n..]
  }

  /** The terminal after one more line: the oldest lines beyond 1000 are removed. */
  function Shown(terminal: seq<TerminalLine>, line: TerminalLine): (r: seq<TerminalLine>)
    ensures |r| <= MaxOutputLines && r != [] && r[|r| - 1] == line
  {
    LastLines(terminal + [line], MaxOutputLines)
  }

  /** The terminal after several lines, added one at a time. */
  function ShownAll(terminal: seq<TerminalLine>, lines: seq<TerminalLine>): seq<TerminalLine>
  {
    if lines == [] then terminal
    else Shown(ShownAll(terminal, lines[..|lines| - 1]), lines[|lines| - 1])
  }

  lemma ShownAllSnoc(terminal: seq<TerminalLine>, lines: seq<TerminalLine>, x: TerminalLine)
    ensures ShownAll(terminal, lines + [x]) == Shown(ShownAll(terminal, lines), x)
  {
    assert (lines + [x])[..|lines|] == lines;
  }

  /** Cutting after every line shows the same as cutting once: the terminal holds the
      last 1000 of all the lines ever written. */
  lemma {:induction false} ShownAllIsLast(terminal: seq<TerminalLine>, lines: seq<TerminalLine>)
    requires |terminal| <= MaxOutputLines
    ensures ShownAll(terminal, lines) == LastLines(terminal + lines, MaxOutputLines)
    decreases |lines|
  {
    if lines != [] {
      var init := lines[..|lines| - 1];
      var x := lines[|lines| - 1];
      assert init + [x] == lines;
      ShownAllSnoc(terminal, init, x);
      ShownAllIsLast(terminal, init);
      LastLinesSnoc(terminal + init, x);
      assert terminal + init + [x] == terminal + lines;
    }
  }

  lemma LastLinesSnoc(s: seq<TerminalLine>, x: TerminalLine)
    ensures LastLines(LastLines(s, MaxOutputLines) + [x], MaxOutputLines) == LastLines(s + [x], MaxOutputLines)
  {
    var a := LastLines(LastLines(s, MaxOutputLines) + [x], MaxOutputLines);
    var b := LastLines(s + [x], MaxOutputLines);
    var t := LastLines(s, MaxOutputLines);
    assert |a| == |b|;
    forall k | 0 <= k < |a|
      ensures a[k] == b[k]
    {
      if k == |a| - 1 {
      } else {
        assert a[k] == (t + [x])[|t| + 1 - |a| + k];
        assert b[k] == (s + [x])[|s| + 1 - |b| + k];
      }
    }
  }

  lemma {:induction false} ShownAllAppend(terminal: seq<TerminalLine>, a: seq<TerminalLine>, b: seq<TerminalLine>)
    ensures ShownAll(terminal, a + b) == ShownAll(ShownAll(terminal, a), b)
    decreases |b|
  {
    if b == [] {
      assert a + b == a;
    } else {
      assert (a + b)[..|a + b| - 1] == a + b[..|b| - 1];
      ShownAllAppend(terminal, a, b[..|b| - 1]);
    }
  }

  /** Each text as a terminal line of the given kind. */
  function Tagged(texts: seq<string>, kind: LineKind): (r: seq<TerminalLine>)
    ensures |r| == |texts|
    ensures forall k :: 0 <= k < |r| ==> r[k] == TerminalLine(texts[k], kind)
  {
    seq(|texts|, k requires 0 <= k < |texts| => TerminalLine(texts[k], kind))
  }

  lemma TaggedPrefix(texts: seq<string>, i: nat, kind: LineKind)
    requires i < |texts|
    ensures Tagged(texts[..i + 1], kind) == Tagged(texts[..i], kind) + [TerminalLine(texts[i], kind)]
  {
  }

  /** The lines of the trimmed text. */
  function OutputTexts(text: string): seq<string>
  {
    Split(Trim(text), '\n')
  }

  /** The lines a command output is shown as: one per line of the trimmed text. */
  function OutputLines(text: string, kind: LineKind): seq<TerminalLine>
  {
    if text == "" then [] else Tagged(OutputTexts(text), kind)
  }

  // ---------------------------------------------------------------------------
  // Command execution

  /** What is sent: a plain command, or an input for the running interactive command. */
  datatype Request = Execute(command: string) | Interactive(command: string, input: string)

  /** The JSON answer of `/execute`; an empty `error` is an absent one. */
  datatype ExecData = ExecData(error: string, stdout: string, stderr: string, returncode: Option<int>)

  /** How a request ends: an answer, an HTTP error status, the 30-second abort, or a
      failure carrying its message. */
  datatype Reply = Answered(data: ExecData) | HttpFailure(status: int) | TimedOut | NetworkFailure(message: string)

  /** The status line under the terminal. */
  datatype Status = Ready | Running | Success | InInteractiveMode | NormalMode
                  | ExitCode(code: Option<int>) | Errored | OllamaDown | ConnectionLost

  /** The texts of the two lines shown when the daemon is down. */
  const DaemonDownTexts: seq<string> :=
    ["Erreur: Le service Ollama n'est pas" + " en cours d'exécution.",
     "Exécutez 'ollama serve' dans un terminal" + " séparé pour démarrer le service."]

  /** The two lines shown when the daemon is down, as errors. */
  function DaemonDownLines(): seq<TerminalLine> {
    Tagged(DaemonDownTexts, Error)
  }

  /** The message of a request the browser could not complete: the error's message
      after the connection prefix. */
  function ConnectionMessage(detail: string): (m: string)
    ensures StartsWith(m, "Erreur de connexion: ") && !StartsWith(m, "Erreur: ")
    ensures |m| >= |detail| && m[|m| - |detail|..] == detail
  {
    var m := "Erreur de connexion: " + detail;
    assert m[..8][6] == ' ';
    m
  }

  /** The message of a request aborted after `ExecuteTimeout` milliseconds. */
  function TimeoutMessage(): (m: string)
    ensures StartsWith(m, "Erreur: ") && !StartsWith(m, "Erreur de connexion: ")
    ensures Contains(m, IntToString(ExecuteTimeout / 1000) + "s")
  {
    var head := "Erreur: La commande a dépassé le délai" + " d'exécution (";
    var seconds := IntToString(ExecuteTimeout / 1000) + "s";
    var m := head + seconds + ")";
    assert m[|head|..|head| + |seconds|] == seconds;
    assert OccursAt(m, seconds, |head|);
    assert m[..8] == head[..8] == "Erreur: ";
    assert m[..21][6] == m[..8][6] == ':';
    m
  }

  /** The message of a request that ended without an answer; an HTTP error status is
      thrown as `Erreur HTTP: <status>` and caught as a connection error. */
  function FailureMessage(reply: Reply): (m: string)
    requires !reply.Answered?
    ensures reply.TimedOut? <==> StartsWith(m, "Erreur: ")
    ensures !reply.TimedOut? <==> StartsWith(m, "Erreur de connexion: ")
    ensures reply.HttpFailure? ==> EndsWith(m, IntToString(reply.status))
    ensures reply.NetworkFailure? ==> EndsWith(m, reply.message)
    ensures reply.TimedOut? ==> Contains(m, IntToString(ExecuteTimeout / 1000) + "s")
  {
    match reply
    case HttpFailure(status) =>
      var detail := "Erreur HTTP: " + IntToString(status);
      var m := ConnectionMessage(detail);
      assert m[|m| - |IntToString(status)|..] == detail[|detail| - |IntToString(status)|..];
      m
    case TimedOut => TimeoutMessage()
    case NetworkFailure(message) => ConnectionMessage(message)
  }

  /** The terminal lines a finished request writes. */
  function Transcript(reply: Reply): (r: seq<TerminalLine>)
    ensures reply.Answered? && reply.data.error != "" ==>
              forall k :: 0 <= k < |r| ==> r[k].kind == Error
    ensures !reply.Answered? ==> |r| == 1 && r[0].kind == Error
  {
    match reply
    case Answered(data) =>
      if data.error != "" then
        if Common.IsOllamaConnectionError(data.error) then DaemonDownLines()
        else [TerminalLine(data.error, Error)]
      else OutputLines(data.stdout, Plain) + OutputLines(data.stderr, Error)
    case _ => [TerminalLine(FailureMessage(reply), Error)]
  }

  /** The request succeeded: an answer without an error. */
  predicate Succeeded(reply: Reply) {
    reply.Answered? && reply.data.error == ""
  }

  /** Whether interactive mode is on once `command` has finished with `reply`: it is
      entered by a successful command starting with `ssh `, kept by a successful
      input whose error output does not mention `error`, and left on `exit` and on
      every failure. */
  function ModeAfter(mode: bool, command: string, reply: Reply): (r: bool)
    ensures r <==> Succeeded(reply) && command != "exit"
                   && ((mode && !Contains(reply.data.stderr, "error")) || StartsWith(command, "ssh "))
    ensures !Succeeded(reply) ==> !r
    ensures command == "exit" ==> !r
    ensures r ==> mode || StartsWith(command, "ssh ")
    ensures Succeeded(reply) && !mode && StartsWith(command, "ssh ") ==> r
    ensures Succeeded(reply) && mode && command != "exit" && !Contains(reply.data.stderr, "error") ==> r
  {
    assert StartsWith(command, "ssh ") ==> command[0] == 's';
    if !Succeeded(reply) then false
    else
      var stderr := reply.data.stderr;
      var kept := mode && !(stderr != "" && Contains(stderr, "error"));
      var entered := kept || StartsWith(command, "ssh ");
      entered && command != "exit"
  }

  /** The command interactive mode runs after `command` finished with `reply`. */
  function InteractiveCommandAfter(mode: bool, running: string, command: string, reply: Reply): (c: string)
    ensures !ModeAfter(mode, command, reply) ==> c == ""
    ensures ModeAfter(mode, command, reply) ==> c == running || (c == command && StartsWith(command, "ssh "))
    ensures ModeAfter(mode, command, reply) && !mode ==> c == command
    ensures Succeeded(reply) && mode && command != "exit" && !Contains(reply.data.stderr, "error") ==> c == running
  {
    if !ModeAfter(mode, command, reply) then ""
    else if mode && !(reply.data.stderr != "" && Contains(reply.data.stderr, "error")) then running
    else command
  }

  /** The status line once the request has finished. */
  function StatusAfter(mode: bool, command: string, reply: Reply): (s: Status)
    ensures s != Ready && s != Running
    ensures s == NormalMode <==> mode && !Succeeded(reply)
    ensures s == ConnectionLost <==> !mode && !reply.Answered?
    ensures s == OllamaDown <==>
              !mode && reply.Answered? && reply.data.error != "" && Common.IsOllamaConnectionError(reply.data.error)
    ensures s == Errored <==>
              !mode && reply.Answered? && reply.data.error != "" && !Common.IsOllamaConnectionError(reply.data.error)
    ensures s == InInteractiveMode <==> ModeAfter(mode, command, reply) && reply.data.returncode == Some(0)
    ensures s == Success <==>
              Succeeded(reply) && reply.data.returncode == Some(0) && !ModeAfter(mode, command, reply)
    ensures s.ExitCode? <==> Succeeded(reply) && reply.data.returncode != Some(0)
    ensures s.ExitCode? ==> s.code == reply.data.returncode
  {
    match reply
    case Answered(data) =>
      if data.error != "" then
        if mode then NormalMode
        else if Common.IsOllamaConnectionError(data.error) then OllamaDown
        else Errored
      else if data.returncode == Some(0) then
        (if ModeAfter(mode, command, reply) then InInteractiveMode else Success)
      else ExitCode(data.returncode)
    case _ => if mode then NormalMode else ConnectionLost
  }

  /** The status after an answer without an error, given the mode that follows it. */
  lemma StatusOfAnswer(mode: bool, command: string, data: ExecData, after: bool)
    requires data.error == "" && after == ModeAfter(mode, command, Answered(data))
    ensures StatusAfter(mode, command, Answered(data))
            == if data.returncode == Some(0) then (if after then InInteractiveMode else Success)
               else ExitCode(data.returncode)
  {
  }

  /** Unfolds `Complete` on an answer carrying an error: the transcript is the daemon-down
      lines or the error line, interactive mode is left and the status is set; a helper of
      `ConsoleState.Complete`. */
  lemma ErrorOutcome(mode: bool, running: string, command: string, reply: Reply)
    requires reply.Answered? && reply.data.error != ""
    ensures Transcript(reply) == (if Common.IsOllamaConnectionError(reply.data.error) then DaemonDownLines()
                                  else [TerminalLine(reply.data.error, Error)])
    ensures !ModeAfter(mode, command, reply) && InteractiveCommandAfter(mode, running, command, reply) == ""
    ensures StatusAfter(mode, command, reply)
            == (if mode then NormalMode
                else if Common.IsOllamaConnectionError(reply.data.error) then OllamaDown
                else Errored)
  {
  }

  /** A request that got no answer leaves interactive mode and writes one error line. */
  lemma FailureOutcome(mode: bool, running: string, command: string, reply: Reply)
    requires !reply.Answered?
    ensures Transcript(reply) == [TerminalLine(FailureMessage(reply), Error)]
    ensures !ModeAfter(mode, command, reply) && InteractiveCommandAfter(mode, running, command, reply) == ""
    ensures StatusAfter(mode, command, reply) == (if mode then NormalMode else ConnectionLost)
  {
  }

  class ConsoleState {
    var commandHistory: seq<string>
    var currentHistoryIndex: int
    /** The command input's text. */
    var input: string
    var lastOutput: string
    var interactiveMode: bool
    var currentInteractiveCommand: string
    var isExecuting: bool
    var terminal: seq<TerminalLine>
    var status: Status
    /** The history as last saved in the browser's storage. */
    var storedHistory: Stored

    /** The state `init` sets up: the stored history loaded, nothing running. */
    constructor(stored: Stored)
      ensures Valid()
      ensures commandHistory == LoadedHistory([], stored) && currentHistoryIndex == -1
      ensures terminal == [] && !isExecuting && !interactiveMode && storedHistory == stored
    {
      commandHistory := [];
      currentHistoryIndex := -1;
      input := "";
      lastOutput := "";
      interactiveMode := false;
      currentInteractiveCommand := "";
      isExecuting := false;
      terminal := [];
      status := Ready;
      storedHistory := stored;
      new;
      LoadCommandHistory(stored);
    }

    /** The history fits its bound and the cursor points into it (or is -1), the
        terminal fits its bound, and interactive mode runs an ssh command. */
    predicate Valid()
      reads this`commandHistory, this`currentHistoryIndex, this`terminal, this`interactiveMode,
            this`currentInteractiveCommand
    {
      |commandHistory| <= MaxHistorySize
      && -1 <= currentHistoryIndex < |commandHistory|
      && |terminal| <= MaxOutputLines
      && (interactiveMode ==> StartsWith(currentInteractiveCommand, "ssh "))
      && (!interactiveMode ==> currentInteractiveCommand == "")
    }

    method LoadCommandHistory(stored: Stored)
      modifies this`commandHistory
      ensures commandHistory == LoadedHistory(old(commandHistory), stored)
    {
      match stored {
        case Missing =>
        case Unparsable =>
          commandHistory := [];
        case NotAnArray =>
          commandHistory := [];
        case Commands(items) =>
          commandHistory := items;
          if |commandHistory| > MaxHistorySize {
            commandHistory := commandHistory[..MaxHistorySize];
          }
      }
    }

    method AddToHistory(c: string)
      requires Valid()
      modifies this`commandHistory, this`currentHistoryIndex, this`storedHistory
      ensures Valid()
      ensures commandHistory == Recorded(old(commandHistory), c)
      ensures old(commandHistory) != [] && old(commandHistory)[0] == c ==>
                currentHistoryIndex == old(currentHistoryIndex) && storedHistory == old(storedHistory)
      ensures !(old(commandHistory) != [] && old(commandHistory)[0] == c) ==>
                currentHistoryIndex == -1 && storedHistory == Commands(commandHistory)
    {
      if |commandHistory| > 0 && commandHistory[0] == c {
        return;
      }
      commandHistory := [c] + commandHistory;
      currentHistoryIndex := -1;
      if |commandHistory| > MaxHistorySize {
        commandHistory := commandHistory[..|commandHistory| - 1];
      }
      storedHistory := Commands(commandHistory);
    }

    method NavigateHistory(direction: int)
      requires Valid()
      modifies this`currentHistoryIndex, this`input
      ensures Valid()
      ensures commandHistory == [] ==> currentHistoryIndex == old(currentHistoryIndex) && input == old(input)
      ensures commandHistory != [] ==>
                currentHistoryIndex == Stepped(old(currentHistoryIndex), |commandHistory|, direction)
                && input == (if currentHistoryIndex >= 0 then commandHistory[currentHistoryIndex] else "")
    {
      if |commandHistory| == 0 {
        return;
      }
      if direction > 0 {
        currentHistoryIndex := if currentHistoryIndex + 1 < |commandHistory| - 1 then currentHistoryIndex + 1
                               else |commandHistory| - 1;
      } else {
        currentHistoryIndex := if currentHistoryIndex - 1 > -1 then currentHistoryIndex - 1 else -1;
      }
      if currentHistoryIndex >= 0 {
        input := commandHistory[currentHistoryIndex];
      } else {
        input := "";
      }
    }

    method AddTerminalLine(text: string, kind: LineKind)
      modifies this`terminal
      ensures terminal == Shown(old(terminal), TerminalLine(text, kind))
    {
      var full := terminal + [TerminalLine(text, kind)];
      terminal := full;
      while |terminal| > MaxOutputLines
        invariant terminal == full[|full| - |terminal|..]
        invariant |terminal| >= MaxOutputLines || terminal == full
        decreases |terminal|
      {
        terminal := terminal[1..];
      }
    }

    /** Writes every line of a command output to the terminal. */
    method AddOutput(text: string, kind: LineKind)
      modifies this`terminal
      ensures terminal == ShownAll(old(terminal), OutputLines(text, kind))
    {
      if text != "" {
        AddLines(OutputTexts(text), kind);
      }
    }

    /** Writes each text as a terminal line, in order. */
    method AddLines(lines: seq<string>, kind: LineKind)
      modifies this`terminal
      ensures terminal == ShownAll(old(terminal), Tagged(lines, kind))
    {
      ghost var start := terminal;
      for i := 0 to |lines|
        invariant terminal == ShownAll(start, Tagged(lines[..i], kind))
      {
        TaggedPrefix(lines, i, kind);
        ShownAllSnoc(start, Tagged(lines[..i], kind), TerminalLine(lines[i], kind));
        AddTerminalLine(lines[i], kind);
      }
      assert lines[..|lines|] == lines;
    }

    method EnterInteractiveMode(command: string)
      requires StartsWith(command, "ssh ")
      modifies this`interactiveMode, this`currentInteractiveCommand, this`status
      ensures interactiveMode && currentInteractiveCommand == command && status == InInteractiveMode
    {
      interactiveMode := true;
      currentInteractiveCommand := command;
      status := InInteractiveMode;
    }

    method ExitInteractiveMode()
      modifies this`interactiveMode, this`currentInteractiveCommand, this`status
      ensures !interactiveMode && currentInteractiveCommand == "" && status == NormalMode
    {
      interactiveMode := false;
      currentInteractiveCommand := "";
      status := NormalMode;
    }

    /** The first half of `executeCommand`, up to the request: a blank command is
        ignored, and so is a non-interactive one while another is running; otherwise
        the command is recorded (outside interactive mode), echoed, and sent. */
    method Submit(command: string, isInteractive: bool) returns (request: Option<Request>)
      requires Valid()
      modifies this
      ensures Valid()
      ensures Trim(command) == "" || (old(isExecuting) && !isInteractive) ==>
                request == None && unchanged(this)
      ensures Trim(command) != "" && (!old(isExecuting) || isInteractive) ==>
                isExecuting && status == Running
                && request == Some(if old(interactiveMode)
                                   then Interactive(old(currentInteractiveCommand), Trim(command))
                                   else Execute(Trim(command)))
                && (if !isInteractive && !old(interactiveMode)
                    then commandHistory == Recorded(old(commandHistory), Trim(command))
                    else commandHistory == old(commandHistory))
                && terminal == (if !isInteractive || !old(interactiveMode)
                                then Shown(old(terminal), TerminalLine("assistant-ia $ " + Trim(command), Plain))
                                else old(terminal))
                && input == (if isInteractive then old(input) else "")
                && interactiveMode == old(interactiveMode)
                && currentInteractiveCommand == old(currentInteractiveCommand)
                && lastOutput == old(lastOutput)
    {
      var c := Trim(command);
      if c == "" || (isExecuting && !isInteractive) {
        return None;
      }
      request := Send(c, isInteractive);
    }

    /** Sends the non-blank trimmed command `c`. */
    method Send(c: string, isInteractive: bool) returns (request: Option<Request>)
      requires Valid()
      modifies this`isExecuting, this`commandHistory, this`currentHistoryIndex, this`storedHistory,
               this`terminal, this`status, this`input
      ensures Valid()
      ensures isExecuting && status == Running
      ensures request == Some(if old(interactiveMode) then Interactive(old(currentInteractiveCommand), c)
                              else Execute(c))
      ensures if !isInteractive && !old(interactiveMode)
              then commandHistory == Recorded(old(commandHistory), c)
              else commandHistory == old(commandHistory)
      ensures terminal == (if !isInteractive || !old(interactiveMode)
                           then Shown(old(terminal), TerminalLine("assistant-ia $ " + c, Plain))
                           else old(terminal))
      ensures input == (if isInteractive then old(input) else "")
      ensures interactiveMode == old(interactiveMode)
      ensures currentInteractiveCommand == old(currentInteractiveCommand)
      ensures lastOutput == old(lastOutput)
    {
      isExecuting := true;
      Echo(c, isInteractive);
      status := Running;
      if interactiveMode {
        request := Some(Interactive(currentInteractiveCommand, c));
      } else {
        request := Some(Execute(c));
      }
      if !isInteractive {
        input := "";
      }
    }

    /** Records `c` in the history (a command typed outside interactive mode) and echoes
        it (unless it is an input typed in interactive mode). */
    method Echo(c: string, isInteractive: bool)
      requires Valid()
      modifies this`commandHistory, this`currentHistoryIndex, this`storedHistory, this`terminal
      ensures Valid()
      ensures if !isInteractive && !interactiveMode
              then commandHistory == Recorded(old(commandHistory), c)
              else commandHistory == old(commandHistory)
      ensures terminal == (if !isInteractive || !interactiveMode
                           then Shown(old(terminal), TerminalLine("assistant-ia $ " + c, Plain))
                           else old(terminal))
    {
      if !isInteractive && !interactiveMode {
        AddToHistory(c);
      }
      if !isInteractive || !interactiveMode {
        AddTerminalLine("assistant-ia $ " + c, Plain);
      }
    }

    /** The second half of `executeCommand`: `command` (the trimmed command that was
        sent) finished with `reply`. */
    method Complete(command: string, reply: Reply)
      requires Valid()
      modifies this`terminal, this`status, this`interactiveMode, this`currentInteractiveCommand,
               this`isExecuting, this`lastOutput
      ensures Valid()
      ensures !isExecuting
      ensures terminal == ShownAll(old(terminal), Transcript(reply))
      ensures interactiveMode == ModeAfter(old(interactiveMode), command, reply)
      ensures currentInteractiveCommand ==
                InteractiveCommandAfter(old(interactiveMode), old(currentInteractiveCommand), command, reply)
      ensures status == StatusAfter(old(interactiveMode), command, reply)
      ensures lastOutput == (if Succeeded(reply) && reply.data.stdout != "" then reply.data.stdout
                             else old(lastOutput))
    {
      if reply.Answered? && reply.data.error != "" {
        ErrorOutcome(interactiveMode, currentInteractiveCommand, command, reply);
        ShowError(reply.data.error);
      } else if reply.Answered? {
        assert Transcript(reply) == OutputLines(reply.data.stdout, Plain) + OutputLines(reply.data.stderr, Error);
        ShowAnswer(command, reply.data);
      } else {
        FailureOutcome(interactiveMode, currentInteractiveCommand, command, reply);
        FailWith(FailureMessage(reply));
      }
    }

    /** An answer carrying an error: the daemon-down lines or the error itself,
        and interactive mode left. */
    method ShowError(error: string)
      requires Valid() && error != ""
      modifies this`terminal, this`status, this`interactiveMode, this`currentInteractiveCommand, this`isExecuting
      ensures Valid()
      ensures terminal == ShownAll(old(terminal), if Common.IsOllamaConnectionError(error) then DaemonDownLines()
                                                  else [TerminalLine(error, Error)])
      ensures !isExecuting && !interactiveMode && currentInteractiveCommand == ""
      ensures status == (if old(interactiveMode) then NormalMode
                         else if Common.IsOllamaConnectionError(error) then OllamaDown
                         else Errored)
    {
      var down := Common.IsOllamaConnectionError(error);
      WriteError(error, down);
      LeaveOnError(down);
    }

    /** The end of an error answer: the status says whether the daemon is down, unless
        interactive mode was on, which is left. */
    method LeaveOnError(down: bool)
      requires Valid()
      modifies this`status, this`interactiveMode, this`currentInteractiveCommand, this`isExecuting
      ensures Valid()
      ensures !isExecuting && !interactiveMode && currentInteractiveCommand == ""
      ensures status == (if old(interactiveMode) then NormalMode else if down then OllamaDown else Errored)
    {
      status := if down then OllamaDown else Errored;
      if interactiveMode {
        ExitInteractiveMode();
      }
      isExecuting := false;
    }

    /** The lines of an error answer: the daemon-down lines when `down`, else the error. */
    method WriteError(error: string, down: bool)
      modifies this`terminal
      ensures terminal == ShownAll(old(terminal), if down then DaemonDownLines() else [TerminalLine(error, Error)])
      ensures |terminal| <= MaxOutputLines
    {
      if down {
        AddLines(DaemonDownTexts, Error);
      } else {
        AddTerminalLine(error, Error);
        assert [TerminalLine(error, Error)][..0] == [];
      }
    }

    /** An answer without an error: its standard output, then its error output, and
        the mode and status that follow from the command and its exit code. */
    method ShowAnswer(command: string, data: ExecData)
      requires Valid() && data.error == ""
      modifies this`terminal, this`status, this`interactiveMode, this`currentInteractiveCommand,
               this`isExecuting, this`lastOutput
      ensures Valid()
      ensures !isExecuting
      ensures terminal == ShownAll(old(terminal), OutputLines(data.stdout, Plain) + OutputLines(data.stderr, Error))
      ensures interactiveMode == ModeAfter(old(interactiveMode), command, Answered(data))
      ensures currentInteractiveCommand ==
                InteractiveCommandAfter(old(interactiveMode), old(currentInteractiveCommand), command, Answered(data))
      ensures status == StatusAfter(old(interactiveMode), command, Answered(data))
      ensures lastOutput == (if data.stdout != "" then data.stdout else old(lastOutput))
    {
      ghost var mode, running := interactiveMode, currentInteractiveCommand;
      ShowStreams(data);
      assert interactiveMode == mode && currentInteractiveCommand == running;
      FinishAnswer(command, data);
    }

    /** Follows the interactive mode through an answer, sets the status line, and ends
        the execution. */
    method FinishAnswer(command: string, data: ExecData)
      requires Valid() && data.error == ""
      modifies this`interactiveMode, this`currentInteractiveCommand, this`status, this`isExecuting
      ensures Valid() && !isExecuting
      ensures interactiveMode == ModeAfter(old(interactiveMode), command, Answered(data))
      ensures currentInteractiveCommand ==
                InteractiveCommandAfter(old(interactiveMode), old(currentInteractiveCommand), command, Answered(data))
      ensures status == StatusAfter(old(interactiveMode), command, Answered(data))
    {
      var mode := interactiveMode;
      FollowMode(command, Answered(data));
      SettleStatus(mode, command, data);
      isExecuting := false;
    }

    /** Sets the status line from the exit code of an answer and the mode it left. */
    method SettleStatus(mode: bool, command: string, data: ExecData)
      requires Valid() && data.error == "" && interactiveMode == ModeAfter(mode, command, Answered(data))
      modifies this`status
      ensures Valid()
      ensures status == StatusAfter(mode, command, Answered(data))
    {
      StatusOfAnswer(mode, command, data, interactiveMode);
      if data.returncode == Some(0) {
        status := if interactiveMode then InInteractiveMode else Success;
      } else {
        status := ExitCode(data.returncode);
      }
    }

    /** Writes the standard output, then the error output, and keeps a non-empty
        standard output as the last output. */
    method ShowStreams(data: ExecData)
      requires Valid()
      modifies this`terminal, this`lastOutput
      ensures Valid()
      ensures terminal == ShownAll(old(terminal), OutputLines(data.stdout, Plain) + OutputLines(data.stderr, Error))
      ensures lastOutput == (if data.stdout != "" then data.stdout else old(lastOutput))
    {
      AddOutput(data.stdout, Plain);
      if data.stdout != "" {
        lastOutput := data.stdout;
      }
      AddOutput(data.stderr, Error);
      ShownAllAppend(old(terminal), OutputLines(data.stdout, Plain), OutputLines(data.stderr, Error));
    }

    /** Interactive mode after a successful answer: left when the error output
        mentions `error`, entered by an `ssh ` command, left on `exit`. */
    method FollowMode(command: string, reply: Reply)
      requires Valid() && Succeeded(reply)
      modifies this`interactiveMode, this`currentInteractiveCommand, this`status
      ensures Valid()
      ensures interactiveMode == ModeAfter(old(interactiveMode), command, reply)
      ensures currentInteractiveCommand ==
                InteractiveCommandAfter(old(interactiveMode), old(currentInteractiveCommand), command, reply)
    {
      var stderr := reply.data.stderr;
      if stderr != "" && interactiveMode && Contains(stderr, "error") {
        ExitInteractiveMode();
      }
      if !interactiveMode && StartsWith(command, "ssh ") {
        EnterInteractiveMode(command);
      }
      if interactiveMode && command == "exit" {
        ExitInteractiveMode();
      }
    }

    /** The failure path of `executeCommand`: one error line, interactive mode left. */
    method FailWith(message: string)
      requires Valid()
      modifies this`terminal, this`status, this`interactiveMode, this`currentInteractiveCommand, this`isExecuting
      ensures Valid()
      ensures terminal == ShownAll(old(terminal), [TerminalLine(message, Error)])
      ensures !isExecuting && !interactiveMode && currentInteractiveCommand == ""
      ensures status == (if old(interactiveMode) then NormalMode else ConnectionLost)
    {
      AddTerminalLine(message, Error);
      assert [TerminalLine(message, Error)][..0] == [];
      status := ConnectionLost;
      if interactiveMode {
        ExitInteractiveMode();
      }
      isExecuting := false;
    }
  }

  // ---------------------------------------------------------------------------
  // The generated text of an inference run

  /** The line announcing the generated text. */
  const Marker: string := "Texte généré:"

  predicate IsMarker(line: string) {
    Contains(line, Marker)
  }

  /** Report lines that are never part of the generated text. */
  predicate Excluded(line: string) {
    Contains(line, "Inférence terminée") || Contains(line, "GPU détecté") || Contains(line, "Utilisation mémoire")
  }

  /** Some line of `lines` announces the generated text. */
  function Started(lines: seq<string>): (r: bool)
    ensures r <==> exists k :: 0 <= k < |lines| && IsMarker(lines[k])
  {
    if lines == [] then false
    else
      var init := lines[..|lines| - 1];
      assert forall k :: 0 <= k < |init| ==> init[k] == lines[k];
      Started(init) || IsMarker(lines[|lines| - 1])
  }

  /** The lines the parsing loop keeps, scanning from the first line on. */
  function KeptLines(lines: seq<string>): (r: seq<string>)
    ensures |r| <= |lines|
    ensures !Started(lines) ==> r == []
    ensures forall k :: 0 <= k < |r| ==> !IsMarker(r[k]) && !Excluded(r[k])
  {
    if lines == [] then []
    else
      var init := lines[..|lines| - 1];
      var last := lines[|lines| - 1];
      KeptLines(init) + (if !IsMarker(last) && Started(init) && !Excluded(last) then [last] else [])
  }

  /** The lines that are neither announcements nor report lines. */
  function Qualifying(lines: seq<string>): (r: seq<string>)
    ensures |r| <= |lines|
  {
    if lines == [] then []
    else
      var last := lines[|lines| - 1];
      Qualifying(lines[..|lines| - 1]) + (if !IsMarker(last) && !Excluded(last) then [last] else [])
  }

  lemma StartedSnoc(lines: seq<string>, x: string)
    ensures Started(lines + [x]) == (Started(lines) || IsMarker(x))
  {
    assert (lines + [x])[..|lines|] == lines;
  }

  lemma KeptSnoc(lines: seq<string>, x: string)
    ensures KeptLines(lines + [x]) == KeptLines(lines) + (if !IsMarker(x) && Started(lines) && !Excluded(x) then [x] else [])
  {
    assert (lines + [x])[..|lines|] == lines;
  }

  lemma QualifyingSnoc(lines: seq<string>, x: string)
    ensures Qualifying(lines + [x]) == Qualifying(lines) + (if !IsMarker(x) && !Excluded(x) then [x] else [])
  {
    assert (lines + [x])[..|lines|] == lines;
  }

  /** What is kept is exactly the qualifying lines after the first announcement. */
  lemma {:induction false} KeptAfterMarker(pre: seq<string>, marker: string, post: seq<string>)
    requires forall k :: 0 <= k < |pre| ==> !IsMarker(pre[k])
    requires IsMarker(marker)
    ensures KeptLines(pre + [marker] + post) == Qualifying(post)
    decreases |post|
  {
    if post == [] {
      assert pre + [marker] + post == pre + [marker];
      KeptSnoc(pre, marker);
    } else {
      var init := post[..|post| - 1];
      var x := post[|post| - 1];
      assert post == init + [x];
      assert pre + [marker] + post == (pre + [marker] + init) + [x];
      KeptAfterMarker(pre, marker, init);
      assert Started(pre + [marker] + init) by {
        assert (pre + [marker] + init)[|pre|] == marker;
      }
      KeptSnoc(pre + [marker] + init, x);
      QualifyingSnoc(init, x);
    }
  }

  /** The kept lines, each followed by a newline. */
  function TextOf(lines: seq<string>): string
  {
    if lines == [] then "" else TextOf(lines[..|lines| - 1]) + lines[|lines| - 1] + "\n"
  }

  lemma TextOfSnoc(lines: seq<string>, x: string)
    ensures TextOf(lines + [x]) == TextOf(lines) + x + "\n"
  {
    assert (lines + [x])[..|lines|] == lines;
  }

  /** The output `runInference` keeps from an inference run's standard output: the
      trimmed kept lines, or the whole output when that is empty. */
  function InferenceResult(stdout: string): (r: string)
    ensures !Started(Split(stdout, '\n')) ==> r == stdout
  {
    var kept := Trim(TextOf(KeptLines(Split(stdout, '\n'))));
    if kept != "" then kept else stdout
  }

  /** The parsing loop of `runInference` over a non-empty standard output; `inSection`
      tells whether the announcement line was seen. */
  method ExtractInference(stdout: string) returns (result: Option<string>, inSection: bool)
    ensures stdout == "" ==> result == None
    ensures stdout != "" ==> result == Some(InferenceResult(stdout)) && inSection == Started(Split(stdout, '\n'))
  {
    if stdout == "" {
      return None, false;
    }
    var resultText;
    resultText, inSection := CollectKept(Split(stdout, '\n'));
    var trimmed := Trim(resultText);
    if trimmed != "" {
      result := Some(trimmed);
    } else {
      result := Some(stdout);
    }
  }

  /** Walks the output lines, noting the announcement line and collecting each kept
      line followed by a newline. */
  method CollectKept(lines: seq<string>) returns (resultText: string, inSection: bool)
    ensures resultText == TextOf(KeptLines(lines))
    ensures inSection == Started(lines)
  {
    resultText := "";
    inSection := false;
    for i := 0 to |lines|
      invariant resultText == TextOf(KeptLines(lines[..i]))
      invariant inSection == Started(lines[..i])
    {
      var line := lines[i];
      assert lines[..i + 1] == lines[..i] + [line];
      CollectStep(lines[..i], line);
      if IsMarker(line) {
        inSection := true;
      } else if inSection && !Excluded(line) {
        resultText := resultText + line + "\n";
      }
    }
    assert lines[..|lines|] == lines;
  }

  /** One more line: the text grows by that line when it is kept, and the section
      starts at the announcement line. */
  lemma CollectStep(lines: seq<string>, x: string)
    ensures TextOf(KeptLines(lines + [x]))
            == if !IsMarker(x) && Started(lines) && !Excluded(x) then TextOf(KeptLines(lines)) + x + "\n"
               else TextOf(KeptLines(lines))
    ensures Started(lines + [x]) == (Started(lines) || IsMarker(x))
  {
    var kept := KeptLines(lines);
    KeptSnoc(lines, x);
    StartedSnoc(lines, x);
    if !IsMarker(x) && Started(lines) && !Excluded(x) {
      TextOfSnoc(kept, x);
    } else {
      assert kept + [] == kept;
    }
  }

  // ---------------------------------------------------------------------------
  // The file explorer

  datatype FileKind = Directory | Executable | Python | JavaScript | Css | Html | Markdown
                    | Image | Audio | Video | Document | Archive | Regular

  const ImageExtensions: seq<string> := [".jpg", ".jpeg", ".png", ".gif", ".bmp"]
  const AudioExtensions: seq<string> := [".mp3", ".wav", ".ogg", ".flac"]
  const VideoExtensions: seq<string> := [".mp4", ".avi", ".mov", ".mkv"]
  const DocumentExtensions: seq<string> := [".pdf", ".doc", ".docx", ".xls", ".xlsx", ".ppt", ".pptx"]
  const ArchiveExtensions: seq<string> := [".zip", ".tar", ".gz", ".rar", ".7z"]

  predicate EndsWithAny(name: string, extensions: seq<string>) {
    exists k :: 0 <= k < |extensions| && EndsWith(name, extensions[k])
  }

  /** Neither a directory nor executable: the kind comes from the name. */
  predicate PlainFile(permissions: string) {
    !StartsWith(permissions, "d") && 'x' !in permissions
  }

  /** The name ends with one of the code-file extensions, tested case-sensitively. */
  predicate CodeName(name: string) {
    EndsWith(name, ".py") || EndsWith(name, ".js") || EndsWith(name, ".css") || EndsWith(name, ".html")
    || EndsWith(name, ".md")
  }

  /** A name ending with `ext` ends with its last two characters. */
  lemma EndsWithLastTwo(name: string, ext: string)
    requires |ext| >= 2 && EndsWith(name, ext)
    ensures name[|name| - 1] == ext[|ext| - 1] && name[|name| - 2] == ext[|ext| - 2]
  {
    assert name[|name| - |ext|..][|ext| - 1] == name[|name| - 1];
    assert name[|name| - |ext|..][|ext| - 2] == name[|name| - 2];
  }

  /** At most one of the code-file extensions ends a name, so their order of testing
      does not matter. */
  lemma CodeEndingsExclusive(name: string)
    ensures EndsWith(name, ".py") ==>
              !EndsWith(name, ".js") && !EndsWith(name, ".css") && !EndsWith(name, ".html") && !EndsWith(name, ".md")
    ensures EndsWith(name, ".js") ==> !EndsWith(name, ".css") && !EndsWith(name, ".html") && !EndsWith(name, ".md")
    ensures EndsWith(name, ".css") ==> !EndsWith(name, ".html") && !EndsWith(name, ".md")
    ensures EndsWith(name, ".html") ==> !EndsWith(name, ".md")
  {
    if EndsWith(name, ".py") { EndsWithLastTwo(name, ".py"); }
    if EndsWith(name, ".js") { EndsWithLastTwo(name, ".js"); }
    if EndsWith(name, ".css") { EndsWithLastTwo(name, ".css"); }
    if EndsWith(name, ".html") { EndsWithLastTwo(name, ".html"); }
    if EndsWith(name, ".md") { EndsWithLastTwo(name, ".md"); }
  }

  /** The kind the lower-cased name of a plain file gives, tested in the order image,
      audio, video, document, archive. */
  function MediaKind(lower: string): (r: FileKind)
    ensures r == Image <==> EndsWithAny(lower, ImageExtensions)
    ensures r == Audio <==> !EndsWithAny(lower, ImageExtensions) && EndsWithAny(lower, AudioExtensions)
    ensures r == Video <==>
              !EndsWithAny(lower, ImageExtensions) && !EndsWithAny(lower, AudioExtensions)
              && EndsWithAny(lower, VideoExtensions)
    ensures r == Document <==>
              !EndsWithAny(lower, ImageExtensions) && !EndsWithAny(lower, AudioExtensions)
              && !EndsWithAny(lower, VideoExtensions) && EndsWithAny(lower, DocumentExtensions)
    ensures r == Archive <==>
              !EndsWithAny(lower, ImageExtensions) && !EndsWithAny(lower, AudioExtensions)
              && !EndsWithAny(lower, VideoExtensions) && !EndsWithAny(lower, DocumentExtensions)
              && EndsWithAny(lower, ArchiveExtensions)
    ensures r == Regular <==>
              !EndsWithAny(lower, ImageExtensions) && !EndsWithAny(lower, AudioExtensions)
              && !EndsWithAny(lower, VideoExtensions) && !EndsWithAny(lower, DocumentExtensions)
              && !EndsWithAny(lower, ArchiveExtensions)
    ensures r in {Image, Audio, Video, Document, Archive, Regular}
  {
    if EndsWithAny(lower, ImageExtensions) then Image
    else if EndsWithAny(lower, AudioExtensions) then Audio
    else if EndsWithAny(lower, VideoExtensions) then Video
    else if EndsWithAny(lower, DocumentExtensions) then Document
    else if EndsWithAny(lower, ArchiveExtensions) then Archive
    else Regular
  }

  /** The kind of a listed entry: a directory by its permissions, then an executable,
      then by extension: the code-file ones on the name as listed, then the media ones
      on the lower-cased name. */
  function KindOf(permissions: string, name: string): (r: FileKind)
    ensures r == Directory <==> StartsWith(permissions, "d")
    ensures r == Executable <==> !StartsWith(permissions, "d") && 'x' in permissions
    ensures r == Python <==> PlainFile(permissions) && EndsWith(name, ".py")
    ensures r == JavaScript <==> PlainFile(permissions) && EndsWith(name, ".js")
    ensures r == Css <==> PlainFile(permissions) && EndsWith(name, ".css")
    ensures r == Html <==> PlainFile(permissions) && EndsWith(name, ".html")
    ensures r == Markdown <==> PlainFile(permissions) && EndsWith(name, ".md")
    ensures PlainFile(permissions) && !CodeName(name) ==> r == MediaKind(Lower(name))
  {
    CodeEndingsExclusive(name);
    if StartsWith(permissions, "d") then Directory
    else if 'x' in permissions then Executable
    else if EndsWith(name, ".py") then Python
    else if EndsWith(name, ".js") then JavaScript
    else if EndsWith(name, ".css") then Css
    else if EndsWith(name, ".html") then Html
    else if EndsWith(name, ".md") then Markdown
    else MediaKind(Lower(name))
  }

  /** Dot files other than `.` and `..` are marked hidden. */
  predicate Hidden(name: string) {
    StartsWith(name, ".") && name != ".." && name != "."
  }

  /** The path a click on an entry opens. */
  function ItemPath(directory: string, name: string): (r: string)
    ensures EndsWith(r, name)
    ensures directory == "./" ==> r == name
    ensures directory != "./" ==> StartsWith(r, directory + "/")
  {
    if directory == "./" then name
    else
      var r := directory + "/" + name;
      assert r[|r| - |name|..] == name;
      assert r[..|directory + "/"|] == directory + "/";
      r
  }

  /** JavaScript's `s.substring(start)`: the start is clamped to the string. */
  function SubstringFrom(s: string, start: int): (r: string)
    ensures |r| <= |s| && r == s[|s| - |r|..]
    ensures 0 <= start <= |s| ==> r == s[start..]
  {
    if start < 0 then s else if start > |s| then "" else s[start..]
  }

  /** The name as the code reads it: the text after the first occurrence of the eighth
      field anywhere in the line, plus one separator. */
  function NameAsWritten(line: string): (r: string)
    requires |Words(line)| >= 9
  {
    TextAfter(line, Words(line)[7])
  }

  /** The text after the first occurrence of `field` in `line` and one separator. */
  function TextAfter(line: string, field: string): string {
    SubstringFrom(line, IndexOf(line, field) + |field| + 1)
  }

  /** The intended name: everything after the eighth field and its separator. */
  function NameAfterFields(line: string): (r: string)
    requires |Words(line)| >= 9
    ensures Words(r) == Words(line)[8..]
  {
    var rest := AfterFields(line, 8);
    AfterFieldsWords(line, 8);
    AfterFieldsAtSpace(line, 8);
    DropSeparator(rest);
    rest[1..]
  }

  /** On a line `head year month day year name` whose size field equals its year and whose
      first four fields do not contain the year, the code finds the year in the size
      field: the name it takes still starts with the date. The intended name is the listed
      one. */
  lemma NameAsWrittenKeepsDate(head: seq<string>, date: seq<string>, year: string, name: string)
    requires |head| == 4 && |date| == 2 && IsField(year) && Words(name) != []
    requires forall k :: 0 <= k < 4 ==> IsField(head[k])
    requires forall k :: 0 <= k < 2 ==> IsField(date[k])
    requires !Contains(Spaced(head, ""), year)
    ensures var line := Spaced(head + ([year] + (date + [year])), name);
            && |Words(line)| >= 9
            && NameAsWritten(line) == Spaced(date + [year], name)
            && Words(NameAsWritten(line)) == date + [year] + Words(name)
  {
    var tail := date + [year];
    var line := Spaced(head + ([year] + tail), name);
    LineWords(head, date, year, name);
    assert |Words(line)| >= 9 && Words(line)[7] == year;
    NameAsWrittenAfter(line, year);
    YearFoundInSize(head, tail, year, name);
    assert NameAsWritten(line) == Spaced(tail, name);
    SpacedWords(tail, name);
  }

  /** The name the code takes is what follows the first occurrence of the eighth field and
      one separator. */
  lemma NameAsWrittenAfter(line: string, year: string)
    requires |Words(line)| >= 9 && Words(line)[7] == year
    ensures NameAsWritten(line) == TextAfter(line, year)
  {
  }

  /** On the same lines the intended name is the text after the eighth field: exactly the
      listed name's words. */
  lemma NameAfterFieldsKeepsName(head: seq<string>, date: seq<string>, year: string, name: string)
    requires |head| == 4 && |date| == 2 && IsField(year) && Words(name) != []
    requires forall k :: 0 <= k < 4 ==> IsField(head[k])
    requires forall k :: 0 <= k < 2 ==> IsField(date[k])
    ensures var line := Spaced(head + ([year] + (date + [year])), name);
            |Words(line)| >= 9 && Words(NameAfterFields(line)) == Words(name)
  {
    var line := Spaced(head + ([year] + (date + [year])), name);
    LineWords(head, date, year, name);
  }

  /** The words of such a line are its eight fields, then the words of the name. */
  lemma LineWords(head: seq<string>, date: seq<string>, year: string, name: string)
    requires |head| == 4 && |date| == 2 && IsField(year)
    requires forall k :: 0 <= k < 4 ==> IsField(head[k])
    requires forall k :: 0 <= k < 2 ==> IsField(date[k])
    ensures var fields := head + ([year] + (date + [year]));
            var ws := Words(Spaced(fields, name));
            && ws == fields + Words(name)
            && |ws| == 8 + |Words(name)| && ws[7] == year && ws[8..] == Words(name)
  {
    var fields := head + ([year] + (date + [year]));
    LineFields(head, date, year);
    SpacedWords(fields, name);
    assert (fields + Words(name))[8..] == Words(name);
  }

  /** The eight fields of such a line are fields. */
  lemma LineFields(head: seq<string>, date: seq<string>, year: string)
    requires |head| == 4 && |date| == 2 && IsField(year)
    requires forall k :: 0 <= k < 4 ==> IsField(head[k])
    requires forall k :: 0 <= k < 2 ==> IsField(date[k])
    ensures var fields := head + ([year] + (date + [year]));
            |fields| == 8 && forall k :: 0 <= k < 8 ==> IsField(fields[k])
  {
    var fields := head + ([year] + (date + [year]));
    forall k | 0 <= k < 8 ensures IsField(fields[k]) {
      if 5 <= k < 7 { assert fields[k] == date[k - 5]; }
    }
  }

  /** The text after the first occurrence of the year, when the year does not occur in the
      fields before it, is what follows the year's own separator. */
  lemma YearFoundInSize(head: seq<string>, tail: seq<string>, year: string, name: string)
    requires head != [] && IsField(year) && !Contains(Spaced(head, ""), year)
    ensures var line := Spaced(head + ([year] + tail), name);
            TextAfter(line, year) == Spaced(tail, name)
  {
    YearAfterHead(head, tail, year, name);
    SpacedEndsInSpace(head);
    TextAfterField(Spaced(head, ""), year, Spaced(tail, name));
  }

  /** After a text ending in whitespace that does not contain the field, the field, a space
      and `r`: the text after the field's first occurrence and its separator is `r`. */
  lemma TextAfterField(p: string, w: string, r: string)
    requires IsField(w) && !Contains(p, w)
    requires p == [] || IsSpace(p[|p| - 1])
    ensures TextAfter(p + (w + (" " + r)), w) == r
  {
    var s := p + (w + (" " + r));
    IndexOfAfter(p, w, " " + r);
    assert s[|p| + |w| + 1..] == r;
  }

  /** Such a line is its first fields, spaced, then the year, a space and the rest. */
  lemma YearAfterHead(head: seq<string>, tail: seq<string>, year: string, name: string)
    ensures Spaced(head + ([year] + tail), name) == Spaced(head, "") + (year + (" " + Spaced(tail, name)))
  {
    SpacedAppend(head, [year] + tail, name);
    SpacedCons(year, tail, name);
  }

  /** The fields of an `ls -la` line whose size equals the year of its date,
      `-rw-r--r-- 1 u g 2024 Jan 5 2024 <name>`: permissions, link count, owner and group;
      month and day; the year, which is also the size. */
  const LsHead: seq<string> := ["-rw-r--r--", "1", "u", "g"]
  const LsDate: seq<string> := ["Jan", "5"]
  const LsYear: string := "2024"

  /** That line, naming `name`. */
  function SizeIsYearLine(name: string): string {
    Spaced(LsHead + ([LsYear] + (LsDate + [LsYear])), name)
  }

  /** On that line the name the code shows starts with `Jan 5 2024`. */
  lemma SizeIsYearKeepsDate(name: string)
    requires Words(name) != []
    ensures |Words(SizeIsYearLine(name))| >= 9
    ensures Words(NameAsWritten(SizeIsYearLine(name))) == LsDate + [LsYear] + Words(name)
    ensures Words(NameAfterFields(SizeIsYearLine(name))) == Words(name)
  {
    SizeIsYearFields();
    NameAsWrittenKeepsDate(LsHead, LsDate, LsYear, name);
    NameAfterFieldsKeepsName(LsHead, LsDate, LsYear, name);
  }

  /** The fields of that line are fields, and the first four, spaced, do not contain the
      year. */
  lemma SizeIsYearFields()
    ensures |LsHead| == 4 && forall k :: 0 <= k < 4 ==> IsField(LsHead[k])
    ensures |LsDate| == 2 && forall k :: 0 <= k < 2 ==> IsField(LsDate[k])
    ensures IsField(LsYear)
    ensures !Contains(Spaced(LsHead, ""), LsYear)
  {
    var p := "-rw-r--r-- 1 u g ";
    SpacedCons("g", [], "");
    SpacedCons("u", ["g"], "");
    SpacedCons("1", ["u", "g"], "");
    SpacedCons("-rw-r--r--", ["1", "u", "g"], "");
    assert Spaced(LsHead, "") == p;
    forall j | 0 <= j <= |p| - 4 ensures !OccursAt(p, "2024", j) {
      assert p[j..j + 4][0] == p[j] != '2';
    }
  }

  /** One entry of the explorer. */
  datatype FileItem = FileItem(name: string, path: string, kind: FileKind, hidden: bool,
                               size: string, date: string, permissions: string)

  /** The entry a line of `ls -la` shows, or none for a line with fewer than nine fields.
      The name is the one the code takes (see `NameAsWritten`); `ParseLineExact` says when
      it is the listed name. */
  function ParseLine(line: string, directory: string): (r: Option<FileItem>)
    ensures r.Some? <==> |Words(line)| >= 9
    ensures r.Some? ==> r.value.name == NameAsWritten(line)
                        && r.value.name == line[|line| - |r.value.name|..]
                        && r.value.permissions == Words(line)[0]
                        && r.value.size == Words(line)[4]
                        && r.value.kind == KindOf(Words(line)[0], r.value.name)
                        && r.value.path == ItemPath(directory, r.value.name)
                        && (r.value.hidden <==> (StartsWith(r.value.name, ".") && r.value.name != "."
                                                 && r.value.name != ".."))
                        && r.value.date == Words(line)[5] + " " + Words(line)[6] + " " + Words(line)[7]
  {
    var parts := Words(line);
    if |parts| < 9 then None
    else
      var name := NameAsWritten(line);
      Some(FileItem(name, ItemPath(directory, name), KindOf(parts[0], name), Hidden(name),
                    parts[4], parts[5] + " " + parts[6] + " " + parts[7], parts[0]))
  }

  /** On a line of eight fields and then a name, where the eighth field does not occur
      before its own place, the entry is named exactly `name`: the name the code takes and
      the intended one agree. */
  lemma ParseLineExact(fields: seq<string>, name: string, directory: string)
    requires |fields| == 8 && forall k :: 0 <= k < 8 ==> IsField(fields[k])
    requires Words(name) != []
    requires !Contains(Spaced(fields[..7], ""), fields[7])
    ensures var line := Spaced(fields, name);
            && ParseLine(line, directory).Some?
            && ParseLine(line, directory).value.name == name
            && Words(NameAfterFields(line)) == Words(name)
  {
    var line := Spaced(fields, name);
    PlainLineWords(fields, name);
    PlainLineSplit(fields, name);
    SpacedEndsInSpace(fields[..7]);
    TextAfterField(Spaced(fields[..7], ""), fields[7], name);
    assert NameAsWritten(line) == name;
  }

  /** The words of such a line are its eight fields, then the words of the name. */
  lemma PlainLineWords(fields: seq<string>, name: string)
    requires |fields| == 8 && forall k :: 0 <= k < 8 ==> IsField(fields[k])
    ensures var ws := Words(Spaced(fields, name));
            |ws| == 8 + |Words(name)| && ws[7] == fields[7] && ws[8..] == Words(name)
  {
    SpacedWords(fields, name);
    assert (fields + Words(name))[8..] == Words(name);
  }

  /** Such a line is its first seven fields, spaced, then the eighth, a space and the name. */
  lemma PlainLineSplit(fields: seq<string>, name: string)
    requires |fields| == 8
    ensures Spaced(fields, name) == Spaced(fields[..7], "") + (fields[7] + (" " + name))
  {
    assert fields == fields[..7] + [fields[7]];
    SpacedAppend(fields[..7], [fields[7]], name);
    SpacedCons(fields[7], [], name);
  }

  /** The summary line `total N` that `ls -l` prints first. */
  predicate IsTotalLine(line: string) {
    StartsWith(Trim(line), "total")
  }

  /** The lines of the listing that are not summary lines, in order. */
  function FileLines(lines: seq<string>): (r: seq<string>)
    ensures |r| <= |lines|
    ensures forall k :: 0 <= k < |r| ==> !IsTotalLine(r[k]) && r[k] in lines
    ensures forall k :: 0 <= k < |lines| && !IsTotalLine(lines[k]) ==> lines[k] in r
  {
    if lines == [] then []
    else
      var rest := FileLines(lines[1..]);
      assert forall k :: 1 <= k < |lines| ==> lines[k] == lines[1..][k - 1];
      if IsTotalLine(lines[0]) then rest else [lines[0]] + rest
  }

  /** The filter keeps the listing's order: the lines kept from a concatenation are those
      kept from each part. */
  lemma {:induction false} FileLinesAppend(a: seq<string>, b: seq<string>)
    ensures FileLines(a + b) == FileLines(a) + FileLines(b)
    decreases |a|
  {
    if a == [] {
      assert a + b == b;
    } else {
      var ab := a + b;
      assert ab[0] == a[0];
      assert ab[1..] == a[1..] + b;
      FileLinesAppend(a[1..], b);
    }
  }

  /** A single line is kept iff it is not a summary line. */
  lemma FileLinesOne(line: string)
    ensures FileLines([line]) == if IsTotalLine(line) then [] else [line]
  {
    assert [line][1..] == [];
  }

  /** The parse of each listing line. */
  function Parsed(fileLines: seq<string>, directory: string): (r: seq<Option<FileItem>>)
    ensures |r| == |fileLines|
    ensures forall j :: 0 <= j < |r| ==> r[j] == ParseLine(fileLines[j], directory)
  {
    seq(|fileLines|, j requires 0 <= j < |fileLines| => ParseLine(fileLines[j], directory))
  }

  /** The entries of the listing lines, skipping the short ones. */
  function Entries(fileLines: seq<string>, directory: string): (r: seq<FileItem>)
    ensures |r| <= |fileLines|
  {
    Somes(Parsed(fileLines, directory))
  }

  /** Every entry is the parse of one of the lines. */
  lemma EntriesParsed(fileLines: seq<string>, directory: string, item: FileItem)
    requires item in Entries(fileLines, directory)
    ensures exists j :: 0 <= j < |fileLines| && ParseLine(fileLines[j], directory) == Some(item)
  {
    SomesPresent(Parsed(fileLines, directory), item);
  }

  /** Listing lines that each show an entry give one entry per line, in order. */
  lemma EntriesOfParsed(fileLines: seq<string>, directory: string)
    requires forall j :: 0 <= j < |fileLines| ==> |Words(fileLines[j])| >= 9
    ensures |Entries(fileLines, directory)| == |fileLines|
    ensures forall j :: 0 <= j < |fileLines| ==>
              Some(Entries(fileLines, directory)[j]) == ParseLine(fileLines[j], directory)
  {
    SomesAll(Parsed(fileLines, directory));
  }

  /** What the explorer shows. */
  datatype Explorer = Unavailable(message: string) | EmptyDirectory | Files(items: seq<FileItem>)

  /** The directory `exploreFiles` lists: the trimmed text, or `./` when blank. */
  function ExploredDirectory(directory: string): (r: string)
    ensures r != ""
  {
    var d := Trim(directory);
    if d == "" then "./" else d
  }

  /** `exploreFiles`: lists `directory` from the answer to `ls -la`, or from the
      message of the failure that ended the request. */
  method ExploreFiles(directory: string, answer: Result<ExecData, string>) returns (view: Explorer)
    ensures answer.Err? ==> view == Unavailable("Erreur de connexion: " + answer.error)
    ensures answer.Ok? && answer.value.error != "" ==> view == Unavailable("Erreur: " + answer.value.error)
    ensures answer.Ok? && answer.value.error == "" && answer.value.stderr != "" ==> view == Unavailable(answer.value.stderr)
    ensures answer.Ok? && answer.value.error == "" && answer.value.stderr == "" ==>
              var fileLines := FileLines(Split(Trim(answer.value.stdout), '\n'));
              view == (if fileLines == [] then EmptyDirectory
                       else Files(Entries(fileLines, ExploredDirectory(directory))))
  {
    var dir := ExploredDirectory(directory);
    if answer.Err? {
      return Unavailable("Erreur de connexion: " + answer.error);
    }
    var data := answer.value;
    if data.error != "" {
      return Unavailable("Erreur: " + data.error);
    }
    if data.stderr != "" {
      return Unavailable(data.stderr);
    }
    var fileLines := FileLines(Split(Trim(data.stdout), '\n'));
    if |fileLines| == 0 {
      return EmptyDirectory;
    }
    var items := KeepPresent(Parsed(fileLines, dir));
    return Files(items);
  }
}
