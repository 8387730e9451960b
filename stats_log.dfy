/** The inference statistics file `stats/inference_stats.json`: a JSON list of records,
    appended to by the command-line client and by the web server, and cut down to its
    newest 200 entries after every append. */
module StatsLog {
  import opened Wrappers
  import opened Strings

  /** Maximum number of entries kept in the file. */
  const MaxInferenceHistory: nat := 200

  /** One record. Every field is optional because the readers (`.get(key, default)`,
      `entry.output_length || 0`) tolerate records written by hand or by older code. */
  datatype StatsEntry = StatsEntry(
    timestamp: Option<real>,
    model: Option<string>,
    prompt: Option<string>,
    promptLength: Option<nat>,
    maxTokens: Option<int>,
    outputLength: Option<nat>,
    executionTime: Option<real>)

  /** The record the command-line client writes: the prompt itself and the word count
      of the output (which is the error text when the inference failed). */
  function CliEntry(now: real, model: string, prompt: string, maxTokens: int,
                    output: string, executionTime: real): StatsEntry
  {
    StatsEntry(Some(now), Some(model), Some(prompt), None, Some(maxTokens),
               Some(WordCount(output)), Some(executionTime))
  }

  /** The record the web server writes: word counts of both prompt and output. */
  function ServerEntry(now: real, model: string, prompt: string, maxTokens: int,
                       output: string, executionTime: real): StatsEntry
  {
    StatsEntry(Some(now), Some(model), None, Some(WordCount(prompt)), Some(maxTokens),
               Some(WordCount(output)), Some(executionTime))
  }

  /** `s[-n:]` when `len(s) > n`, else `s`. */
  function KeepLast<T>(s: seq<T>, n: nat): (r: seq<T>)
    ensures |r| == if |s| > n then n else |s|
    ensures r == s[|s| - |r|..]
  {
    if |s| > n then s[|s| - n..] else s
  }

  /** Appending one record then truncating: the new record is the newest entry, the
      log never exceeds the cap, and the older records kept are the newest of the old log,
      in their original order. */
  lemma {:induction false} AppendBounded<T>(s: seq<T>, e: T, n: nat)
    requires n > 0
    ensures var r := KeepLast(s + [e], n);
      && |r| <= n
      && |r| == (if |s| + 1 > n then n else |s| + 1)
      && r[|r| - 1] == e
      && r[..|r| - 1] == s[|s| - (|r| - 1)..]
  {
    var r := KeepLast(s + [e], n);
    var t := s + [e];
    assert r == t[|t| - |r|..];
    assert r[|r| - 1] == t[|t| - 1];
    assert r[..|r| - 1] == t[|t| - |r|..|t| - 1];
    assert t[..|t| - 1] == s;
  }

  /** Once the log is full, each append drops exactly the oldest record. */
  lemma FullLogDropsOldest<T>(s: seq<T>, e: T, n: nat)
    requires n > 0 && |s| == n
    ensures KeepLast(s + [e], n) == s[1..] + [e]
  {
    assert (s + [e])[1..] == s[1..] + [e];
  }

  /** The statistics file. `None` stands for a file that exists but does not parse. */
  class StatsFile {
    var log: Option<seq<StatsEntry>>

    constructor(initial: Option<seq<StatsEntry>>)
      ensures log == initial
    {
      log := initial;
    }

    /** `ConfigManager.save_inference_stats` of the command-line client: an unreadable
        file counts as an empty list. */
    method SaveFromCli(e: StatsEntry)
      modifies this
      ensures log == Some(KeepLast(old(log).GetOr([]) + [e], MaxInferenceHistory))
    {
      var stats := log.GetOr([]);
      stats := stats + [e];
      if |stats| > MaxInferenceHistory {
        stats := stats[|stats| - MaxInferenceHistory..];
      }
      log := Some(stats);
    }

    /** `StatsManager.save_inference_stats` of the web server: an unreadable file makes
        the call fail and leaves the file as it was. */
    method SaveFromServer(e: StatsEntry) returns (saved: bool)
      modifies this
      ensures saved <==> old(log).Some?
      ensures saved ==> log == Some(KeepLast(old(log).value + [e], MaxInferenceHistory))
      ensures !saved ==> log == old(log)
    {
      if log.None? {
        return false;
      }
      var stats := log.value + [e];
      if |stats| > MaxInferenceHistory {
        stats := stats[|stats| - MaxInferenceHistory..];
      }
      log := Some(stats);
      return true;
    }
  }
}
