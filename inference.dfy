/** The command-line inference client `run-inference.py`: the daemon availability loop,
    the blocking and streaming generate calls, the mapping from exceptions to the
    returned error text, the default-model lookup and the `main` flow.

    The daemon is abstracted as its answers: `probe(k)` is the outcome of the k-th
    `/api/tags` probe, a `Reply` is the outcome of the blocking `/api/generate` call,
    and a stream is the sequence of its lines, already decoded, with `deadline` the
    first iteration at which the timer's cancel event is found set (it stays set). */
module Inference {
  import opened Wrappers
  import opened Strings
  import StatsLog
  import opened OllamaConfig

  const MaxAttempts: nat := 3
  const DefaultTimeout: nat := 120
  const DefaultHost := "localhost"
  const DefaultPort := "11434"
  const FallbackModel := "llama3"
  const DefaultTemperature: real := 0.7
  const DefaultMaxTokens: int := 500

  // ---------------------------------------------------------------- availability

  /** Outcome of one `/api/tags` probe: an HTTP status, a refused connection
      (`requests.exceptions.ConnectionError`), or any other exception (a read timeout,
      say), which the retry loop does not catch. */
  datatype Probe = Answered(status: int) | Refused | Escaped(detail: string)

  datatype Availability = Running | Unavailable | ProbeRaised(detail: string)

  predicate Healthy(p: Probe) { p.Answered? && p.status == 200 }

  /** Probe `j` is made: every earlier probe neither answered 200 nor raised. */
  predicate Reached(probe: nat -> Probe, j: nat) {
    forall i :: 0 <= i < j ==> !Healthy(probe(i)) && !probe(i).Escaped?
  }

  /** Some probe among the three that are allowed answers 200. */
  predicate AnswersBy(probe: nat -> Probe) {
    exists j :: 0 <= j < MaxAttempts && Reached(probe, j) && Healthy(probe(j))
  }

  /** Some probe among the three that are allowed raises an exception the loop does not catch. */
  predicate EscapesBy(probe: nat -> Probe) {
    exists j :: 0 <= j < MaxAttempts && Reached(probe, j) && probe(j).Escaped?
  }

  /** The probe loop ends in exactly one way: a healthy answer, an escaping exception, or
      three probes that did neither. */
  lemma ProbeCourses(probe: nat -> Probe)
    ensures AnswersBy(probe) || EscapesBy(probe) || Reached(probe, MaxAttempts)
    ensures !(AnswersBy(probe) && EscapesBy(probe))
    ensures Reached(probe, MaxAttempts) ==> !AnswersBy(probe) && !EscapesBy(probe)
  {
    if !Reached(probe, MaxAttempts) {
      var i := 0;
      while i < MaxAttempts && !Healthy(probe(i)) && !probe(i).Escaped?
        invariant i <= MaxAttempts && Reached(probe, i)
      {
        i := i + 1;
      }
      if i < MaxAttempts && Healthy(probe(i)) {
        assert AnswersBy(probe);
      } else if i < MaxAttempts {
        assert EscapesBy(probe);
      }
    }
  }

  /** Number of refused probes among the first `n`. */
  function RefusedAmong(probe: nat -> Probe, n: nat): (k: nat)
    ensures k <= n
  {
    if n == 0 then 0 else RefusedAmong(probe, n - 1) + (if probe(n - 1).Refused? then 1 else 0)
  }

  /** `OllamaClient.ensure_ollama_running`: up to three probes; `ollama serve` is
      launched (and waited for) after each refused connection, never after a non-200
      answer. */
  method EnsureOllamaRunning(probe: nat -> Probe) returns (r: Availability, probes: nat, launches: nat)
    ensures 1 <= probes <= MaxAttempts
    ensures forall j :: 0 <= j < probes - 1 ==> !Healthy(probe(j)) && !probe(j).Escaped?
    ensures r == Running <==> Healthy(probe(probes - 1))
    ensures r.ProbeRaised? <==> probe(probes - 1).Escaped?
    ensures r == Unavailable <==>
              forall j :: 0 <= j < MaxAttempts ==> !Healthy(probe(j)) && !probe(j).Escaped?
    ensures r == Unavailable ==> probes == MaxAttempts
    ensures launches == RefusedAmong(probe, probes) && launches <= probes
    ensures r == Running <==> AnswersBy(probe)
    ensures r.ProbeRaised? <==> EscapesBy(probe)
    ensures r == Unavailable <==> Reached(probe, MaxAttempts)
  {
    var attempt: nat := 0;
    launches := 0;
    while attempt < MaxAttempts
      invariant attempt <= MaxAttempts
      invariant forall j :: 0 <= j < attempt ==> !Healthy(probe(j)) && !probe(j).Escaped?
      invariant launches == RefusedAmong(probe, attempt)
    {
      var p := probe(attempt);
      if Healthy(p) {
        ProbeCourses(probe);
        return Running, attempt + 1, launches;
      } else if p.Escaped? {
        ProbeCourses(probe);
        return ProbeRaised(p.detail), attempt + 1, launches;
      } else if p.Refused? {
        launches := launches + 1;
      }
      attempt := attempt + 1;
    }
    ProbeCourses(probe);
    return Unavailable, MaxAttempts, launches;
  }

  /** Refused connections on every attempt: three launches, then failure. */
  lemma AlwaysRefused(probe: nat -> Probe)
    requires forall j :: 0 <= j < MaxAttempts ==> probe(j).Refused?
    ensures RefusedAmong(probe, MaxAttempts) == MaxAttempts
  {
    assert probe(0).Refused? && probe(1).Refused? && probe(2).Refused?;
  }

  // ---------------------------------------------------------------- results and errors

  /** The exceptions `OllamaClient.run_inference` tells apart. */
  datatype Failure = TimedOut | ConnectionLost | Raised(detail: string)

  datatype Outcome = Generated(text: string) | Failed(failure: Failure)

  datatype Endpoint = Endpoint(host: string, port: string)

  // The messages are assembled from short literals so that the verifier can read
  // their characters.
  const ErrorHead := "Erreur: "
  const UnavailableMessage := ErrorHead + "Ollama n'est pas disponible. " + "Vérifiez l'installation " + "et le service."
  const TimeoutPrefix := ErrorHead + "L'inférence a dépassé " + "le délai d'exécution ("
  const ConnectionPrefix := ErrorHead + "Impossible de se connecter " + "à Ollama. Vérifiez qu'Ollama " + "est bien lancé sur "
  const OtherPrefix := "Erreur lors de l'inférence: "

  /** The fixed opening of the message for each kind of failure. */
  function PrefixOf(f: Failure): string {
    match f
    case TimedOut => TimeoutPrefix
    case ConnectionLost => ConnectionPrefix
    case Raised(_) => OtherPrefix
  }

  /** The text `run_inference` returns for each kind of exception. */
  function FailureMessage(f: Failure, timeout: int, at: Endpoint): (m: string)
    ensures StartsWith(m, PrefixOf(f))
    ensures f == TimedOut ==> Contains(m, IntToString(timeout))
    ensures f == ConnectionLost ==> EndsWith(m, at.host + ":" + at.port)
    ensures f.Raised? ==> m == OtherPrefix + f.detail
  {
    match f
    case TimedOut =>
      PiecesOf(TimeoutPrefix, IntToString(timeout), " secondes)");
      TimeoutPrefix + IntToString(timeout) + " secondes)"
    case ConnectionLost =>
      PiecesOf(ConnectionPrefix, at.host + ":" + at.port, "");
      assert ConnectionPrefix + (at.host + ":" + at.port) + "" == ConnectionPrefix + at.host + ":" + at.port;
      ConnectionPrefix + at.host + ":" + at.port
    case Raised(d) =>
      PiecesOf(OtherPrefix, d, "");
      assert OtherPrefix + d + "" == OtherPrefix + d;
      OtherPrefix + d
  }

  /** `a + b + c` starts with `a`, contains `b` and ends with `b` when `c` is empty. */
  lemma PiecesOf(a: string, b: string, c: string)
    ensures StartsWith(a + b + c, a)
    ensures Contains(a + b + c, b)
    ensures c == "" ==> EndsWith(a + b + c, b)
  {
    var m := a + b + c;
    assert m[..|a|] == a;
    assert m[|a|..|a| + |b|] == b;
    assert OccursAt(m, b, |a|);
  }

  lemma PrefixesDiffer(m1: string, p1: string, m2: string, p2: string, k: nat)
    requires StartsWith(m1, p1) && StartsWith(m2, p2)
    requires k < |p1| && k < |p2| && p1[k] != p2[k]
    ensures m1 != m2
  {
    assert m1[k] == p1[k] && m2[k] == p2[k];
  }

  lemma PrefixChars()
    ensures TimeoutPrefix[8] == 'L' && ConnectionPrefix[8] == 'I' && UnavailableMessage[8] == 'O'
    ensures OtherPrefix[6] == ' ' && TimeoutPrefix[6] == ':' && ConnectionPrefix[6] == ':'
    ensures UnavailableMessage[6] == ':'
    ensures |OtherPrefix| > 8 && |TimeoutPrefix| > 8 && |ConnectionPrefix| > 8 && |UnavailableMessage| > 8
  {
  }

  /** The three kinds of failure produce three different messages, whatever the
      exception text, and none of them is the unavailability message. */
  lemma FailureMessagesDistinct(f1: Failure, f2: Failure, timeout: int, at: Endpoint)
    requires f1 != f2 && (f1.Raised? ==> !f2.Raised?)
    ensures FailureMessage(f1, timeout, at) != FailureMessage(f2, timeout, at)
    ensures FailureMessage(f1, timeout, at) != UnavailableMessage
  {
    var m1, m2 := FailureMessage(f1, timeout, at), FailureMessage(f2, timeout, at);
    PrefixChars();
    var k := if f1.Raised? || f2.Raised? then 6 else 8;
    PrefixesDiffer(m1, PrefixOf(f1), m2, PrefixOf(f2), k);
    assert StartsWith(UnavailableMessage, UnavailableMessage);
    var k' := if f1.Raised? then 6 else 8;
    PrefixesDiffer(m1, PrefixOf(f1), UnavailableMessage, UnavailableMessage, k');
  }

  /** What `run_inference` returns: the generated text, or the message of the failure. */
  function ResultText(o: Outcome, timeout: int, at: Endpoint): string {
    match o
    case Generated(t) => t
    case Failed(f) => FailureMessage(f, timeout, at)
  }

  // ---------------------------------------------------------------- blocking call

  /** Outcome of the blocking `/api/generate` call: refused, an HTTP error status, a JSON
      body with or without a `response` field, a body that does not decode, or the
      alarm firing. */
  datatype Reply = ReplyRefused | HttpError(detail: string) | Body(response: Option<string>)
                 | BadBody(detail: string) | Expired

  /** `_run_inference_basic` apart from its timer. */
  function BasicOutcome(reply: Reply): (o: Outcome)
    ensures o.Generated? <==> reply.Body?
    ensures reply.Body? ==> o.text == reply.response.GetOr("")
    ensures reply == Expired <==> o == Failed(TimedOut)
    ensures reply == ReplyRefused <==> o == Failed(ConnectionLost)
  {
    match reply
    case ReplyRefused => Failed(ConnectionLost)
    case HttpError(d) => Failed(Raised(d))
    case Body(r) => Generated(r.GetOr(""))
    case BadBody(d) => Failed(Raised(d))
    case Expired => Failed(TimedOut)
  }

  // ---------------------------------------------------------------- streaming call

  /** A decoded stream line: its `response` field, if any, and its `done` flag. */
  datatype Chunk = Chunk(response: Option<string>, done: bool)

  /** A raw stream line: empty, one whose decoding or use raises (not JSON, not an
      object, a non-string `response`), or a decoded chunk. */
  datatype Line = Blank | Malformed(detail: string) | Decoded(chunk: Chunk)

  /** How a stream ends: the lines ran out, a `done` chunk was read, or an exception. */
  datatype StreamOutcome = Exhausted(text: string) | Finished(text: string) | Aborted(failure: Failure)

  /** `consumed` is the number of lines taken from the iterator, `tokens` the final
      `token_count`. */
  datatype StreamRun = StreamRun(outcome: StreamOutcome, consumed: nat, tokens: nat)

  /** `str(e)` of the `UnboundLocalError` raised when the first line is empty. */
  const UnboundChunkDetail := "cannot access local variable 'chunk' where it is not associated with a value"

  /** The loop of `_run_inference_stream` from line `i` on, with `last` the chunk
      variable, `text` the accumulated text and `count` the token count. */
  function StreamFrom(lines: seq<Line>, deadline: nat, i: nat, last: Option<Chunk>,
                      text: string, count: nat): (r: StreamRun)
    requires i <= |lines|
    ensures i <= r.consumed <= |lines|
    ensures count <= r.tokens
    decreases |lines| - i
  {
    if i == |lines| then StreamRun(Exhausted(text), i, count)
    else if deadline <= i then StreamRun(Aborted(TimedOut), i + 1, count)
    else match lines[i]
      case Malformed(d) => StreamRun(Aborted(Raised(d)), i + 1, count)
      case Blank =>
        if last.None? then StreamRun(Aborted(Raised(UnboundChunkDetail)), i + 1, count)
        else if last.value.done then StreamRun(Finished(text), i + 1, count)
        else StreamFrom(lines, deadline, i + 1, last, text, count)
      case Decoded(c) =>
        var t := text + c.response.GetOr("");
        if c.done then StreamRun(Finished(t), i + 1, count + 1)
        else StreamFrom(lines, deadline, i + 1, Some(c), t, count + 1)
  }

  function Stream(lines: seq<Line>, deadline: nat): (r: StreamRun)
    ensures r.consumed <= |lines|
  {
    StreamFrom(lines, deadline, 0, None, "", 0)
  }

  /** The `response` fields (or `""`) of the decoded lines, in order. */
  function Responses(lines: seq<Line>): (rs: seq<string>)
    ensures |rs| <= |lines|
  {
    if lines == [] then []
    else Responses(lines[..|lines| - 1])
         + (if lines[|lines| - 1].Decoded? then [lines[|lines| - 1].chunk.response.GetOr("")] else [])
  }

  predicate IsDone(l: Line) { l.Decoded? && l.chunk.done }

  /** What a run says about the lines it read: its text and token count come from
      them, only the last one read may be a `done` chunk, and it is one exactly when the
      run finished. */
  ghost predicate Accounted(lines: seq<Line>, r: StreamRun)
    requires r.consumed <= |lines|
  {
    && (r.outcome.Exhausted? || r.outcome.Finished? ==>
          r.outcome.text == Concat(Responses(lines[..r.consumed]))
          && r.tokens == |Responses(lines[..r.consumed])|)
    && (r.outcome.Exhausted? ==> r.consumed == |lines|)
    && (r.outcome.Finished? ==> 0 < r.consumed && IsDone(lines[r.consumed - 1]))
    && (forall j :: 0 <= j < r.consumed - 1 ==> !IsDone(lines[j]))
  }

  lemma ResponsesStep(lines: seq<Line>, i: nat)
    requires i < |lines|
    ensures Responses(lines[..i + 1]) == Responses(lines[..i])
              + (if lines[i].Decoded? then [lines[i].chunk.response.GetOr("")] else [])
  {
    assert lines[..i + 1][..i] == lines[..i];
  }

  lemma {:induction false} StreamFromText(lines: seq<Line>, deadline: nat, i: nat, last: Option<Chunk>,
                                          text: string, count: nat)
    requires i <= |lines|
    requires text == Concat(Responses(lines[..i])) && count == |Responses(lines[..i])|
    requires last.Some? ==> !last.value.done
    requires forall j :: 0 <= j < i ==> !IsDone(lines[j])
    ensures Accounted(lines, StreamFrom(lines, deadline, i, last, text, count))
    decreases |lines| - i, 1
  {
    if i < |lines| && i < deadline {
      match lines[i]
      case Malformed(_) =>
      case Blank => BlankText(lines, deadline, i, last, text, count);
      case Decoded(c) => DecodedText(lines, deadline, i, last, text, count);
    }
  }

  /** `StreamFromText` at an empty line. */
  lemma {:induction false} BlankText(lines: seq<Line>, deadline: nat, i: nat, last: Option<Chunk>,
                                     text: string, count: nat)
    requires i < |lines| && i < deadline && lines[i].Blank?
    requires text == Concat(Responses(lines[..i])) && count == |Responses(lines[..i])|
    requires last.Some? ==> !last.value.done
    requires forall j :: 0 <= j < i ==> !IsDone(lines[j])
    ensures Accounted(lines, StreamFrom(lines, deadline, i, last, text, count))
    decreases |lines| - i, 0
  {
    if last.Some? {
      ResponsesStep(lines, i);
      assert Responses(lines[..i + 1]) == Responses(lines[..i]);
      StreamFromText(lines, deadline, i + 1, last, text, count);
    }
  }

  /** `StreamFromText` at a decoded line. */
  lemma {:induction false} DecodedText(lines: seq<Line>, deadline: nat, i: nat, last: Option<Chunk>,
                                       text: string, count: nat)
    requires i < |lines| && i < deadline && lines[i].Decoded?
    requires text == Concat(Responses(lines[..i])) && count == |Responses(lines[..i])|
    requires last.Some? ==> !last.value.done
    requires forall j :: 0 <= j < i ==> !IsDone(lines[j])
    ensures Accounted(lines, StreamFrom(lines, deadline, i, last, text, count))
    decreases |lines| - i, 0
  {
    var c := lines[i].chunk;
    ResponsesStep(lines, i);
    ConcatAppend(Responses(lines[..i]), c.response.GetOr(""));
    if !c.done {
      StreamFromText(lines, deadline, i + 1, Some(c), text + c.response.GetOr(""), count + 1);
    }
  }

  /** The streamed text is the concatenation of the `response` fields of the lines
      read, the token count is the number of non-empty lines, and reading stops at the
      first `done` chunk: no line after it is read. */
  lemma StreamText(lines: seq<Line>, deadline: nat)
    ensures Accounted(lines, Stream(lines, deadline))
  {
    assert lines[..0] == [];
    StreamFromText(lines, deadline, 0, None, "", 0);
  }

  lemma {:induction false} StreamFromPrefix(lines: seq<Line>, rest: seq<Line>, deadline: nat, i: nat,
                                            last: Option<Chunk>, text: string, count: nat)
    requires i <= |lines|
    requires !StreamFrom(lines, deadline, i, last, text, count).outcome.Exhausted?
    ensures StreamFrom(lines + rest, deadline, i, last, text, count)
            == StreamFrom(lines, deadline, i, last, text, count)
    decreases |lines| - i
  {
    assert (lines + rest)[i] == lines[i];
    if i < |lines| && i < deadline {
      match lines[i]
      case Malformed(_) =>
      case Blank =>
        if last.Some? && !last.value.done {
          StreamFromPrefix(lines, rest, deadline, i + 1, last, text, count);
        }
      case Decoded(c) =>
        if !c.done {
          StreamFromPrefix(lines, rest, deadline, i + 1, Some(c), text + c.response.GetOr(""), count + 1);
        }
    }
  }

  /** Whatever follows the line that ended the loop is never looked at. */
  lemma StreamIgnoresRest(lines: seq<Line>, rest: seq<Line>, deadline: nat)
    requires !Stream(lines, deadline).outcome.Exhausted?
    ensures Stream(lines + rest, deadline) == Stream(lines, deadline)
  {
    StreamFromPrefix(lines, rest, deadline, 0, None, "", 0);
  }

  lemma {:induction false} StreamFromDeadline(lines: seq<Line>, deadline: nat, i: nat,
                                              last: Option<Chunk>, text: string, count: nat)
    requires i <= |lines| && i <= deadline && count <= i
    ensures var r := StreamFrom(lines, deadline, i, last, text, count);
      && r.consumed <= deadline + 1
      && (r.outcome.Exhausted? ==> |lines| <= deadline)
      && (r.outcome == Aborted(TimedOut) ==> r.consumed == deadline + 1 && r.tokens <= deadline)
      && r.tokens <= count + r.consumed - i
    decreases |lines| - i
  {
    if i < |lines| && i < deadline {
      match lines[i]
      case Malformed(_) =>
      case Blank =>
        if last.Some? && !last.value.done {
          StreamFromDeadline(lines, deadline, i + 1, last, text, count);
        }
      case Decoded(c) =>
        if !c.done {
          StreamFromDeadline(lines, deadline, i + 1, Some(c), text + c.response.GetOr(""), count + 1);
        }
    }
  }

  /** Once the cancel event is set no further line is processed: the loop raises the
      timeout at the first iteration that finds it set, having read at most
      `deadline + 1` lines and counted at most `deadline` tokens. */
  lemma StreamStopsAtDeadline(lines: seq<Line>, deadline: nat)
    ensures var r := Stream(lines, deadline);
      && r.consumed <= deadline + 1
      && (r.outcome == Aborted(TimedOut) ==> r.consumed == deadline + 1 && r.tokens <= deadline)
      && (deadline < |lines| && r.consumed == deadline + 1 && !IsDone(lines[deadline])
          ==> r.outcome.Aborted?)
  {
    StreamFromDeadline(lines, deadline, 0, None, "", 0);
    StreamText(lines, deadline);
  }

  /** An empty first line raises before anything is read from a chunk. */
  lemma BlankFirstLine(lines: seq<Line>, deadline: nat)
    requires |lines| > 0 && lines[0] == Blank && deadline > 0
    ensures Stream(lines, deadline) == StreamRun(Aborted(Raised(UnboundChunkDetail)), 1, 0)
  {
  }

  /** The progress messages printed for a token count: every fifth token. */
  function ProgressMarks(n: nat): (marks: seq<nat>)
    ensures forall k :: 0 <= k < |marks| ==> marks[k] == 5 * (k + 1)
    ensures |marks| == n / 5
  {
    if n == 0 then [] else ProgressMarks(n - 1) + (if n % 5 == 0 then [n] else [])
  }

  /** Opening the streaming request: a refused connection, an HTTP error status (from
      `raise_for_status`), or an open stream whose lines are then read. */
  datatype Opening = OpenRefused | OpenHttpError(detail: string) | Opened

  /** A stream that was opened never ends in a connection failure: its aborts are the
      timeout or an exception raised by a line. */
  lemma {:induction false} StreamFromNotRefused(lines: seq<Line>, deadline: nat, i: nat, last: Option<Chunk>,
                                                text: string, count: nat)
    requires i <= |lines|
    ensures StreamFrom(lines, deadline, i, last, text, count).outcome != Aborted(ConnectionLost)
    decreases |lines| - i
  {
    if i < |lines| && i < deadline {
      match lines[i]
      case Malformed(_) =>
      case Blank =>
        if last.Some? && !last.value.done {
          StreamFromNotRefused(lines, deadline, i + 1, last, text, count);
        }
      case Decoded(c) =>
        if !c.done {
          StreamFromNotRefused(lines, deadline, i + 1, Some(c), text + c.response.GetOr(""), count + 1);
        }
    }
  }

  /** `_run_inference_stream` from the request on: an opening that fails aborts before
      any line is read, with the exception `run_inference` then reports. */
  function StreamOpen(opening: Opening, lines: seq<Line>, deadline: nat): (r: StreamRun)
    ensures opening.Opened? ==> r == Stream(lines, deadline)
    ensures !opening.Opened? ==> r.consumed == 0 && r.tokens == 0
    ensures r.outcome == Aborted(ConnectionLost) <==> opening == OpenRefused
    ensures opening.OpenHttpError? ==> r.outcome == Aborted(Raised(opening.detail))
  {
    match opening
    case OpenRefused => StreamRun(Aborted(ConnectionLost), 0, 0)
    case OpenHttpError(d) => StreamRun(Aborted(Raised(d)), 0, 0)
    case Opened =>
      StreamFromNotRefused(lines, deadline, 0, None, "", 0);
      Stream(lines, deadline)
  }

  /** The streaming outcome as `run_inference` sees it. */
  function StreamResult(r: StreamRun): Outcome {
    match r.outcome
    case Exhausted(t) => Generated(t)
    case Finished(t) => Generated(t)
    case Aborted(f) => Failed(f)
  }

  // ---------------------------------------------------------------- client

  /** The options `run_inference` sends with a generate request. */
  datatype GenerateRequest = GenerateRequest(
    model: string, prompt: string, stream: bool,
    temperature: real, maxTokens: int, topP: real, seed: int)

  function BuildRequest(prompt: string, model: string, temperature: real, maxTokens: int,
                        stream: bool): GenerateRequest
  {
    GenerateRequest(model, prompt, stream, temperature, maxTokens, 0.9, 42)
  }

  /** Everything the daemon says during one `run_inference` call. */
  datatype Daemon = Daemon(probe: nat -> Probe, reply: Reply, opening: Opening, lines: seq<Line>, deadline: nat)

  /** What the generate call yields once the daemon is available. */
  function CallOutcome(stream: bool, daemon: Daemon): Outcome {
    if stream then StreamResult(StreamOpen(daemon.opening, daemon.lines, daemon.deadline))
    else BasicOutcome(daemon.reply)
  }

  /** The text `run_inference` returns when no probe raised: the generated text or the
      failure message of the call when the daemon answered, the unavailability message
      otherwise. */
  function InferenceText(stream: bool, daemon: Daemon, timeout: int, at: Endpoint): string {
    if AnswersBy(daemon.probe) then ResultText(CallOutcome(stream, daemon), timeout, at)
    else UnavailableMessage
  }

  /** The global configuration of the script and its two timers: the SIGALRM of the
      blocking call (`alarm` seconds pending, 0 for none) and the `threading.Timer` of the
      streaming call. */
  class OllamaClient {
    var endpoint: Endpoint
    var timeout: int
    var alarm: int
    var timerArmed: bool

    /** The configuration read at start-up: `OLLAMA_API_HOST` and `OLLAMA_API_PORT` from the
        environment (`None` when the variable is unset), each falling back to its default. */
    constructor(envHost: Option<string>, envPort: Option<string>)
      ensures endpoint.host == (if envHost.Some? then envHost.value else DefaultHost)
      ensures endpoint.port == (if envPort.Some? then envPort.value else DefaultPort)
      ensures timeout == DefaultTimeout
      ensures alarm == 0 && !timerArmed
    {
      endpoint := Endpoint(envHost.GetOr(DefaultHost), envPort.GetOr(DefaultPort));
      timeout := DefaultTimeout;
      alarm := 0;
      timerArmed := false;
    }

    /** `_run_inference_basic`: the alarm is set for the call and cleared on every exit. */
    method RunBasic(reply: Reply) returns (o: Outcome)
      modifies this
      ensures o == BasicOutcome(reply)
      ensures alarm == 0
      ensures endpoint == old(endpoint) && timeout == old(timeout) && timerArmed == old(timerArmed)
    {
      alarm := timeout;
      o := BasicOutcome(reply);
      alarm := 0;
    }

    /** `_run_inference_stream`: the loop over the lines, with the timer cancelled on the
        normal and on the exceptional exit; `progress` lists the counts printed. */
    method RunStream(opening: Opening, lines: seq<Line>, deadline: nat) returns (r: StreamRun, progress: seq<nat>)
      modifies this
      ensures r == StreamOpen(opening, lines, deadline)
      ensures progress == ProgressMarks(r.tokens)
      ensures !timerArmed
      ensures endpoint == old(endpoint) && timeout == old(timeout) && alarm == old(alarm)
    {
      timerArmed := true;
      if opening == OpenRefused {
        timerArmed := false;
        return StreamRun(Aborted(ConnectionLost), 0, 0), [];
      } else if opening.OpenHttpError? {
        timerArmed := false;
        return StreamRun(Aborted(Raised(opening.detail)), 0, 0), [];
      }
      r, progress := ReadLines(lines, deadline);
    }

    /** The line loop of `_run_streaming_inference` once the request is open. */
    method ReadLines(lines: seq<Line>, deadline: nat) returns (r: StreamRun, progress: seq<nat>)
      modifies this
      ensures r == Stream(lines, deadline)
      ensures progress == ProgressMarks(r.tokens)
      ensures !timerArmed
      ensures endpoint == old(endpoint) && timeout == old(timeout) && alarm == old(alarm)
    {
      var i: nat := 0;
      var last: Option<Chunk> := None;
      var text := "";
      var count: nat := 0;
      progress := [];
      while i < |lines|
        invariant i <= |lines|
        invariant StreamFrom(lines, deadline, i, last, text, count) == Stream(lines, deadline)
        invariant progress == ProgressMarks(count)
        invariant endpoint == old(endpoint) && timeout == old(timeout) && alarm == old(alarm)
      {
        if deadline <= i {
          timerArmed := false;
          return StreamRun(Aborted(TimedOut), i + 1, count), progress;
        }
        var line := lines[i];
        if line.Malformed? {
          timerArmed := false;
          return StreamRun(Aborted(Raised(line.detail)), i + 1, count), progress;
        }
        if line.Decoded? {
          var c := line.chunk;
          text := text + c.response.GetOr("");
          count := count + 1;
          if count % 5 == 0 {
            progress := progress + [count];
          }
          last := Some(c);
        } else if last.None? {
          timerArmed := false;
          return StreamRun(Aborted(Raised(UnboundChunkDetail)), i + 1, count), progress;
        }
        if last.value.done {
          timerArmed := false;
          return StreamRun(Finished(text), i + 1, count), progress;
        }
        i := i + 1;
      }
      timerArmed := false;
      return StreamRun(Exhausted(text), i, count), progress;
    }

    /** `OllamaClient.run_inference`: no generate request is sent when the daemon is not
        available; an exception other than a refused connection while probing escapes
        (`Err`); every failure of the generate call becomes its message. */
    method RunInference(prompt: string, model: string, temperature: real, maxTokens: int,
                        stream: bool, daemon: Daemon)
      returns (result: Result<string, string>, request: Option<GenerateRequest>)
      modifies this
      ensures endpoint == old(endpoint) && timeout == old(timeout)
      ensures alarm == 0 || alarm == old(alarm)
      ensures !timerArmed || timerArmed == old(timerArmed)
      ensures request.Some? <==> AnswersBy(daemon.probe)
      ensures request.Some? ==> request.value == BuildRequest(prompt, model, temperature, maxTokens, stream)
      ensures result.Err? <==> EscapesBy(daemon.probe)
      ensures result.Ok? ==> result.value == InferenceText(stream, daemon, timeout, endpoint)
      ensures (request.None? && result == Ok(UnavailableMessage)) <==> Reached(daemon.probe, MaxAttempts)
      ensures request.Some? ==> result == Ok(ResultText(CallOutcome(stream, daemon), timeout, endpoint))
    {
      var availability, _, _ := EnsureOllamaRunning(daemon.probe);
      if availability.ProbeRaised? {
        return Err(availability.detail), None;
      }
      if availability == Unavailable {
        return Ok(UnavailableMessage), None;
      }
      var data := BuildRequest(prompt, model, temperature, maxTokens, stream);
      var o: Outcome;
      if stream {
        var run, _ := RunStream(daemon.opening, daemon.lines, daemon.deadline);
        o := StreamResult(run);
      } else {
        o := RunBasic(daemon.reply);
      }
      return Ok(ResultText(o, timeout, endpoint)), Some(data);
    }
  }

  // ---------------------------------------------------------------- configuration

  /** The configuration file as `get_default_model` finds it. */
  /** `ConfigManager.get_default_model`. */
  function DefaultModel(c: ConfigFile): (m: string)
    ensures m != "none"
    ensures m == FallbackModel <==>
              (c.NoFile? || c.Corrupt? || c.defaultModel.None?
               || c.defaultModel == Some("none") || c.defaultModel == Some(FallbackModel))
    ensures c.Config? && c.defaultModel.Some? && c.defaultModel.value != "none"
            ==> m == c.defaultModel.value
  {
    match c
    case Config(Some(name)) => if name == "none" then FallbackModel else name
    case _ => FallbackModel
  }

  // ---------------------------------------------------------------- main

  /** The command line after argparse (absent string options are `None`). */
  datatype CliArgs = CliArgs(
    model: Option<string>, noStream: bool, temperature: real, maxTokens: int,
    timeout: int, listModels: bool, host: Option<string>, port: Option<string>,
    prompt: seq<string>)

  /** An entry of the daemon's model list. */
  datatype ModelInfo = ModelInfo(name: Option<string>, size: Option<int>, modified: Option<string>)

  /** A row of the `--list-models` table. */
  datatype ListingRow = ListingRow(name: string, sizeMb: int, modified: string, isDefault: bool)

  function ListingRowOf(m: ModelInfo, defaultModel: string): (row: ListingRow)
    ensures row.isDefault <==> row.name == defaultModel
    ensures m.name.None? ==> row.name == "Inconnu"
  {
    var name := m.name.GetOr("Inconnu");
    ListingRow(name, m.size.GetOr(0) / (1024 * 1024), m.modified.GetOr("Inconnu"), name == defaultModel)
  }

  function Listing(models: seq<ModelInfo>, defaultModel: string): (rows: seq<ListingRow>)
    ensures |rows| == |models|
    ensures forall k :: 0 <= k < |rows| ==> rows[k] == ListingRowOf(models[k], defaultModel)
  {
    if models == [] then []
    else [ListingRowOf(models[0], defaultModel)] + Listing(models[1..], defaultModel)
  }

  /** Truthiness of an optional string option (`if args.host:`). */
  predicate Given(s: Option<string>) { s.Some? && s.value != "" }

  /** Everything `main` reads besides its arguments: the configuration, the model list,
      the daemon and the clock (start time and measured duration of the call). */
  datatype World = World(config: ConfigFile, models: seq<ModelInfo>, daemon: Daemon, now: real, elapsed: real)

  /** `main`. Returns the exit status and the `--list-models` rows. The status is 0 after
      an inference even when the returned text is an error message, and 1 when a probe
      raised; the statistics are recorded for every inference that returns a text. */
  method RunCli(args: CliArgs, world: World, client: OllamaClient, stats: StatsLog.StatsFile)
    returns (status: int, rows: seq<ListingRow>)
    modifies client, stats
    ensures client.endpoint.host == (if Given(args.host) then args.host.value else old(client.endpoint.host))
    ensures client.endpoint.port == (if Given(args.port) then args.port.value else old(client.endpoint.port))
    ensures client.timeout == (if args.timeout != 0 then args.timeout else old(client.timeout))
    ensures status == 0 || status == 1
    ensures rows != [] ==> args.listModels && status == 0
    ensures args.listModels ==> stats.log == old(stats.log)
    ensures !args.listModels && args.prompt == [] ==> status == 1 && stats.log == old(stats.log)
    ensures args.listModels && world.models != [] && status == 0 ==>
              rows == Listing(world.models, DefaultModel(world.config))
    ensures args.listModels ==> (status == 0 <==> AnswersBy(world.daemon.probe))
    ensures !args.listModels && args.prompt != [] ==> (status == 0 <==> !EscapesBy(world.daemon.probe))
    ensures !args.listModels && status == 1 ==> stats.log == old(stats.log)
    ensures !args.listModels && status == 0 ==>
              var model := if Given(args.model) then args.model.value else DefaultModel(world.config);
              var text := InferenceText(!args.noStream, world.daemon, client.timeout, client.endpoint);
              var entry := StatsLog.CliEntry(world.now, model, Join(args.prompt, " "), args.maxTokens, text, world.elapsed);
              stats.log == Some(StatsLog.KeepLast(old(stats.log).GetOr([]) + [entry], StatsLog.MaxInferenceHistory))
  {
    if Given(args.host) {
      client.endpoint := client.endpoint.(host := args.host.value);
    }
    if Given(args.port) {
      client.endpoint := client.endpoint.(port := args.port.value);
    }
    if args.timeout != 0 {
      client.timeout := args.timeout;
    }
    rows := [];
    if args.listModels {
      var availability, _, _ := EnsureOllamaRunning(world.daemon.probe);
      if availability.ProbeRaised? || availability == Unavailable {
        return 1, [];
      }
      if world.models == [] {
        return 0, [];
      }
      return 0, Listing(world.models, DefaultModel(world.config));
    }
    status := CliInference(args, world, client, stats);
  }

  /** The prompt branch of `main`: no prompt is status 1; otherwise one inference, whose
      text is recorded, and status 1 only when a probe raised. */
  method CliInference(args: CliArgs, world: World, client: OllamaClient, stats: StatsLog.StatsFile)
    returns (status: int)
    modifies client, stats
    ensures client.endpoint == old(client.endpoint) && client.timeout == old(client.timeout)
    ensures status == 0 || status == 1
    ensures args.prompt == [] ==> status == 1
    ensures args.prompt != [] ==> (status == 0 <==> !EscapesBy(world.daemon.probe))
    ensures status == 1 ==> stats.log == old(stats.log)
    ensures status == 0 ==>
              var model := if Given(args.model) then args.model.value else DefaultModel(world.config);
              var text := InferenceText(!args.noStream, world.daemon, client.timeout, client.endpoint);
              var entry := StatsLog.CliEntry(world.now, model, Join(args.prompt, " "), args.maxTokens, text, world.elapsed);
              stats.log == Some(StatsLog.KeepLast(old(stats.log).GetOr([]) + [entry], StatsLog.MaxInferenceHistory))
  {
    if args.prompt == [] {
      return 1;
    }
    var prompt := Join(args.prompt, " ");
    var model := if Given(args.model) then args.model.value else DefaultModel(world.config);
    var result, _ := client.RunInference(prompt, model, args.temperature, args.maxTokens,
                                         !args.noStream, world.daemon);
    if result.Err? {
      return 1;
    }
    stats.SaveFromCli(StatsLog.CliEntry(world.now, model, prompt, args.maxTokens,
                                        result.value, world.elapsed));
    return 0;
  }
}
