/** The web server `app.py`: request validation for the model routes, the statistics
    bookkeeping of `/api/test-model`, the history and usage views of the statistics,
    the parsing of `nvidia-smi` output, the start-up repair of the default model and the
    response of `/execute`.

    Subprocesses are abstracted as their outcome (`Exec`), JSON request bodies as `Json`
    values, and the statistics file as `StatsLog.StatsFile`. */
module App {
  import opened Wrappers
  import opened Strings
  import Sorting
  import StatsLog
  import opened OllamaConfig

  // ---------------------------------------------------------------- JSON values

  /** A JSON value as Flask decodes it: `JBool` is a Python `bool`, which is also an
      `int`; `JOther` is a list or an object, of which only emptiness matters here. */
  datatype Json = JNull | JBool(b: bool) | JInt(i: int) | JFloat(r: real) | JStr(s: string)
                | JOther(empty: bool)

  /** Python truthiness (`if not value`). */
  predicate Truthy(v: Json) {
    match v
    case JNull => false
    case JBool(b) => b
    case JInt(i) => i != 0
    case JFloat(r) => r != 0.0
    case JStr(s) => s != ""
    case JOther(empty) => !empty
  }

  /** `request.json.get(key)` is `None` when the key is absent. */
  predicate Present(v: Option<Json>) { v.Some? && Truthy(v.value) }

  // ---------------------------------------------------------------- model names

  /** `c.isalnum() or c in ':-_.'`, with `isalnum` on ASCII. */
  predicate NameChar(c: char) {
    IsAsciiAlnum(c) || c == ':' || c == '-' || c == '_' || c == '.'
  }

  predicate ValidModelName(name: string) {
    forall i :: 0 <= i < |name| ==> NameChar(name[i])
  }

  /** Why a model route refuses its request before running anything. */
  datatype Refusal = NoName | BadName | NotIterable

  const NoNameMessage := "Nom de modèle non fourni"
  const BadNameMessage := "Nom de modèle invalide"

  /** The shared check of `/api/download-model`, `/api/delete-model` and
      `/api/set-default-model`: a missing or falsy name, then the allow-list. A truthy
      non-string name makes the validation raise. */
  function CheckModelName(model: Option<Json>): (r: Result<string, Refusal>)
    ensures r.Ok? <==> Present(model) && model.value.JStr? && ValidModelName(model.value.s)
    ensures r.Ok? ==> r.value == model.value.s && r.value != ""
    ensures r == Err(NoName) <==> !Present(model)
  {
    if !Present(model) then Err(NoName)
    else if !model.value.JStr? then Err(NotIterable)
    else if !ValidModelName(model.value.s) then Err(BadName)
    else Ok(model.value.s)
  }

  /** A name that passes the allow-list cannot carry shell metacharacters, spaces or
      path separators. */
  lemma ValidNameHasNoShellChars(name: string)
    requires ValidModelName(name)
    ensures ' ' !in name && '/' !in name && ';' !in name && '&' !in name && '|' !in name
    ensures '$' !in name && '`' !in name && '\n' !in name
  {
    forall c | c in name ensures NameChar(c) {
      var i :| 0 <= i < |name| && name[i] == c;
    }
  }

  // ---------------------------------------------------------------- subprocesses

  /** Outcome of `subprocess.run(..., timeout=...)`. */
  datatype Exec = Exited(returncode: int, stdout: string, stderr: string) | ExecTimedOut | ExecRaised(detail: string)

  /** The JSON answer of the model routes. */
  datatype Answer = Success(message: string) | Failure(error: string)

  datatype ModelAction = Download | Delete | SetDefault

  function RefusalMessage(r: Refusal, detail: string): string {
    match r
    case NoName => NoNameMessage
    case BadName => BadNameMessage
    case NotIterable => detail
  }

  function SuccessMessage(action: ModelAction, model: string): string {
    match action
    case Download => "Modèle " + model + " téléchargé avec succès"
    case Delete => "Modèle " + model + " supprimé avec succès"
    case SetDefault => "Modèle " + model + " défini comme modèle par défaut"
  }

  /** `api_download_model`, `api_delete_model` and `api_set_default_model`. `run` is the
      outcome of `manage-models.py <action> <model>`; `raisedDetail` is `str(e)` of the
      exception the route catches (a non-string name, or the timeout of a deletion or of
      a default change, which only the download route tells apart). */
  function ModelRoute(action: ModelAction, model: Option<Json>, run: Exec, raisedDetail: string): (a: Answer)
    ensures CheckModelName(model).Err? ==>
              a == Failure(RefusalMessage(CheckModelName(model).error, raisedDetail))
    ensures a.Success? <==> CheckModelName(model).Ok? && run.Exited? && run.returncode == 0
    ensures a.Success? ==> a.message == SuccessMessage(action, CheckModelName(model).value)
    ensures CheckModelName(model).Ok? && run.Exited? && run.returncode != 0 ==> a == Failure(run.stderr)
  {
    match CheckModelName(model)
    case Err(why) => Failure(RefusalMessage(why, raisedDetail))
    case Ok(name) =>
      match run
      case Exited(code, _, stderr) => if code != 0 then Failure(stderr) else Success(SuccessMessage(action, name))
      case ExecTimedOut =>
        if action == Download then Failure("Timeout lors du téléchargement du modèle")
        else Failure(raisedDetail)
      case ExecRaised(d) => Failure(d)
  }

  // ---------------------------------------------------------------- /api/test-model

  /** The body of a `/api/test-model` request: the four keys it reads and whether it has
      any other key (which makes an otherwise empty body truthy). */
  datatype TestBody = TestBody(model: Option<Json>, prompt: Option<Json>, temperature: Option<Json>,
                               maxTokens: Option<Json>, otherKeys: bool)

  /** The validated parameters passed to `run-inference.py --no-stream`. */
  datatype TestParams = TestParams(model: string, prompt: string, temperature: real, maxTokens: int)

  datatype TestRefusal = NoData | MissingField | InvalidName | InvalidTemperature | InvalidMaxTokens | Unusable

  /** `isinstance(v, (int, float))` and its value. */
  function AsNumber(v: Json): Option<real> {
    match v
    case JBool(b) => Some(if b then 1.0 else 0.0)
    case JInt(i) => Some(i as real)
    case JFloat(r) => Some(r)
    case _ => None
  }

  /** `isinstance(v, int)`: a `bool` is an `int` in Python. */
  function AsInt(v: Json): Option<int> {
    match v
    case JBool(b) => Some(if b then 1 else 0)
    case JInt(i) => Some(i)
    case _ => None
  }

  predicate BodyTruthy(body: Option<TestBody>) {
    body.Some? && (body.value.model.Some? || body.value.prompt.Some? || body.value.temperature.Some?
                   || body.value.maxTokens.Some? || body.value.otherKeys)
  }

  /** The checks of `api_test_model`, in their order, before the subprocess is built.
      A truthy name or prompt that is not a string makes the route raise (`Unusable`). */
  function ValidateTest(body: Option<TestBody>): (r: Result<TestParams, TestRefusal>)
    ensures !BodyTruthy(body) <==> r == Err(NoData)
    ensures r.Ok? ==> ValidModelName(r.value.model) && r.value.model != "" && r.value.prompt != ""
    ensures r.Ok? ==> 0.0 <= r.value.temperature <= 1.0 && 1 <= r.value.maxTokens <= 4000
    ensures r.Ok? ==> body.value.temperature.None? || AsNumber(body.value.temperature.value) == Some(r.value.temperature)
    ensures r.Ok? ==> body.value.maxTokens.None? || AsInt(body.value.maxTokens.value) == Some(r.value.maxTokens)
    ensures r.Ok? && body.value.temperature.None? ==> r.value.temperature == 0.7
    ensures r.Ok? && body.value.maxTokens.None? ==> r.value.maxTokens == 500
    ensures BodyTruthy(body) ==>
              var b := body.value;
              var t := AsNumber(b.temperature.GetOr(JFloat(0.7)));
              var n := AsInt(b.maxTokens.GetOr(JInt(500)));
              (Present(b.model) && Present(b.prompt) && b.model.value.JStr? && b.prompt.value.JStr?
               && ValidModelName(b.model.value.s) && t.Some? && 0.0 <= t.value <= 1.0
               && n.Some? && 1 <= n.value <= 4000
               ==> r == Ok(TestParams(b.model.value.s, b.prompt.value.s, t.value, n.value)))
  {
    if !BodyTruthy(body) then Err(NoData)
    else
      var b := body.value;
      var temperature := b.temperature.GetOr(JFloat(0.7));
      var maxTokens := b.maxTokens.GetOr(JInt(500));
      if !Present(b.model) || !Present(b.prompt) then Err(MissingField)
      else if !b.model.value.JStr? then Err(Unusable)
      else if !ValidModelName(b.model.value.s) then Err(InvalidName)
      else if AsNumber(temperature).None? || AsNumber(temperature).value < 0.0 || AsNumber(temperature).value > 1.0 then
        Err(InvalidTemperature)
      else if AsInt(maxTokens).None? || AsInt(maxTokens).value < 1 || AsInt(maxTokens).value > 4000 then
        Err(InvalidMaxTokens)
      else if !b.prompt.value.JStr? then Err(Unusable)
      else Ok(TestParams(b.model.value.s, b.prompt.value.s, AsNumber(temperature).value, AsInt(maxTokens).value))
  }

  /** A temperature outside [0, 1] or not a number is refused whatever else the body holds,
      and so is a `max_tokens` that is not an integer in [1, 4000]. */
  lemma RangeChecksRefuse(body: TestBody)
    ensures (body.temperature.Some? && (AsNumber(body.temperature.value).None?
               || AsNumber(body.temperature.value).value > 1.0)) ==> ValidateTest(Some(body)).Err?
    ensures (body.maxTokens.Some? && (AsInt(body.maxTokens.value).None?
               || AsInt(body.maxTokens.value).value > 4000)) ==> ValidateTest(Some(body)).Err?
  {
  }

  /** `true` passes as a `max_tokens` of 1, because a `bool` is an `int`. */
  lemma TrueIsOneToken()
    ensures var body := TestBody(Some(JStr("llama3")), Some(JStr("hi")), None, Some(JBool(true)), false);
            ValidateTest(Some(body)) == Ok(TestParams("llama3", "hi", 0.7, 1))
  {
  }

  datatype TestAnswer = TestOk(response: string, model: string, tokens: nat) | TestFailed(error: string)

  const TestTimeoutMessage := "L'inférence a dépassé le délai" + " d'exécution (60 secondes)"

  /** The error text of each refusal; `detail` is `str(e)` of the exception a truthy
      non-string name or prompt raises. */
  function TestRefusalMessage(r: TestRefusal, detail: string): string {
    match r
    case NoData => "Données JSON manquantes"
    case MissingField => "Modèle ou prompt manquant"
    case InvalidName => BadNameMessage
    case InvalidTemperature => "Température invalide" + " (doit être entre 0 et 1)"
    case InvalidMaxTokens => "Nombre de tokens invalide" + " (doit être entre 1 et 4000)"
    case Unusable => detail
  }

  /** `api_test_model`: statistics are recorded only when the inference exits with
      status 0, and the token estimate is the word count of its output. */
  method ApiTestModel(body: Option<TestBody>, run: Exec, now: real, elapsed: real, raisedDetail: string,
                      stats: StatsLog.StatsFile)
    returns (answer: TestAnswer, command: Option<TestParams>)
    modifies stats
    ensures command.Some? <==> ValidateTest(body).Ok?
    ensures command.Some? ==> command.value == ValidateTest(body).value
    ensures command.None? ==> answer == TestFailed(TestRefusalMessage(ValidateTest(body).error, raisedDetail))
    ensures command.Some? && run.ExecTimedOut? ==> answer == TestFailed(TestTimeoutMessage)
    ensures command.Some? && run.Exited? && run.returncode != 0 ==> answer == TestFailed(run.stderr)
    ensures command.Some? && run.ExecRaised? ==> answer == TestFailed(run.detail)
    ensures answer.TestOk? <==> command.Some? && run.Exited? && run.returncode == 0
    ensures answer.TestOk? ==> answer.response == run.stdout && answer.tokens == WordCount(run.stdout)
                               && answer.model == command.value.model
    ensures answer.TestOk? ==>
              var p := command.value;
              var saved := old(stats.log).Some?;
              stats.log == (if saved then Some(StatsLog.KeepLast(old(stats.log).value
                             + [StatsLog.ServerEntry(now, p.model, p.prompt, p.maxTokens, run.stdout, elapsed)],
                             StatsLog.MaxInferenceHistory)) else old(stats.log))
    ensures !answer.TestOk? ==> stats.log == old(stats.log)
  {
    var v := ValidateTest(body);
    if v.Err? {
      return TestFailed(TestRefusalMessage(v.error, raisedDetail)), None;
    }
    var p := v.value;
    command := Some(p);
    match run
    case Exited(code, stdout, stderr) =>
      if code != 0 {
        return TestFailed(stderr), command;
      }
      var _ := stats.SaveFromServer(StatsLog.ServerEntry(now, p.model, p.prompt, p.maxTokens, stdout, elapsed));
      answer := TestOk(stdout, p.model, WordCount(stdout));
    case ExecTimedOut =>
      answer := TestFailed(TestTimeoutMessage);
    case ExecRaised(d) =>
      answer := TestFailed(d);
  }

  // ---------------------------------------------------------------- history

  /** `[e for e in history if e.get('model') == m]`. */
  function WithModel(history: seq<StatsLog.StatsEntry>, m: Option<string>): (r: seq<StatsLog.StatsEntry>)
    ensures forall k :: 0 <= k < |r| ==> r[k].model == m
    ensures |r| <= |history|
  {
    if history == [] then []
    else
      var last := history[|history| - 1];
      var prefix := history[..|history| - 1];
      assert history == prefix + [last];
      WithModel(prefix, m) + (if last.model == m then [last] else [])
  }

  /** The filter keeps exactly the entries of model `m`. */
  lemma {:induction false} WithModelMembers(history: seq<StatsLog.StatsEntry>, m: Option<string>, e: StatsLog.StatsEntry)
    ensures e in WithModel(history, m) <==> e in history && e.model == m
    decreases |history|
  {
    if history != [] {
      var prefix := history[..|history| - 1];
      assert history == prefix + [history[|history| - 1]];
      WithModelMembers(prefix, m, e);
    }
  }

  /** `entry.get('timestamp', 0)` as a sort key. */
  function TimestampKey(e: StatsLog.StatsEntry): Sorting.Key {
    Sorting.Num(e.timestamp.GetOr(0.0))
  }

  /** `api_inference_history`: only the entries of the requested model when a non-empty
      filter is given, newest first. */
  function InferenceHistory(history: seq<StatsLog.StatsEntry>, filter: Option<string>): (r: seq<StatsLog.StatsEntry>)
    ensures Sorting.SortedBy(r, TimestampKey, true)
    ensures filter.Some? && filter.value != "" ==>
              multiset(r) == multiset(WithModel(history, filter))
              && forall k :: 0 <= k < |r| ==> r[k].model == filter
    ensures filter.None? || filter.value == "" ==> multiset(r) == multiset(history)
  {
    if filter.Some? && filter.value != "" then
      var kept := WithModel(history, filter);
      var r := Sorting.SortBy(kept, TimestampKey, true);
      SortingKeepsModel(kept, r, filter);
      r
    else
      Sorting.SortBy(history, TimestampKey, true)
  }

  /** A permutation of entries that all belong to model `m` holds only entries of `m`. */
  lemma SortingKeepsModel(kept: seq<StatsLog.StatsEntry>, r: seq<StatsLog.StatsEntry>, m: Option<string>)
    requires multiset(r) == multiset(kept)
    requires forall k :: 0 <= k < |kept| ==> kept[k].model == m
    ensures forall k :: 0 <= k < |r| ==> r[k].model == m
  {
    forall k | 0 <= k < |r| ensures r[k].model == m {
      assert r[k] in multiset(r);
      assert r[k] in kept;
    }
  }

  /** Newest first: timestamps never increase along the history view. */
  lemma HistoryNewestFirst(history: seq<StatsLog.StatsEntry>, filter: Option<string>, i: nat, j: nat)
    requires i < j < |InferenceHistory(history, filter)|
    ensures var r := InferenceHistory(history, filter);
            r[j].timestamp.GetOr(0.0) <= r[i].timestamp.GetOr(0.0)
  {
    var r := InferenceHistory(history, filter);
    assert Sorting.Precedes(TimestampKey(r[i]), TimestampKey(r[j]), true);
  }

  // ---------------------------------------------------------------- model usage

  /** The per-model record of `/api/stats/model-usage` (before its rounded averages). */
  datatype Usage = Usage(name: Option<string>, count: nat, totalTokens: int, totalTime: real, promptTokens: int)

  function AddEntry(u: Usage, e: StatsLog.StatsEntry): Usage {
    u.(count := u.count + 1,
       totalTokens := u.totalTokens + e.outputLength.GetOr(0),
       totalTime := u.totalTime + e.executionTime.GetOr(0.0),
       promptTokens := u.promptTokens + e.promptLength.GetOr(0))
  }

  /** The totals of every entry of `history`, missing fields counting as 0. */
  function Totals(history: seq<StatsLog.StatsEntry>, m: Option<string>): (u: Usage)
    ensures u.name == m && u.count == |history|
  {
    if history == [] then Usage(m, 0, 0, 0.0, 0)
    else AddEntry(Totals(history[..|history| - 1], m), history[|history| - 1])
  }

  /** The usage record of model `m`: the totals of its entries. */
  function UsageOf(history: seq<StatsLog.StatsEntry>, m: Option<string>): Usage {
    Totals(WithModel(history, m), m)
  }

  /** The output-length total of a list of entries. */
  function OutputTokens(history: seq<StatsLog.StatsEntry>): int {
    if history == [] then 0 else OutputTokens(history[..|history| - 1]) + history[|history| - 1].outputLength.GetOr(0)
  }

  lemma {:induction false} TotalsTokens(history: seq<StatsLog.StatsEntry>, m: Option<string>)
    ensures Totals(history, m).totalTokens == OutputTokens(history)
    decreases |history|
  {
    if history != [] {
      TotalsTokens(history[..|history| - 1], m);
    }
  }

  /** The count of a model is the number of its entries, and its token total the sum
      of their `output_length`, a missing value counting as 0. */
  lemma UsageCounts(history: seq<StatsLog.StatsEntry>, m: Option<string>)
    ensures UsageOf(history, m).count == |WithModel(history, m)|
    ensures UsageOf(history, m).totalTokens == OutputTokens(WithModel(history, m))
  {
    TotalsTokens(WithModel(history, m), m);
  }

  lemma UsageStep(history: seq<StatsLog.StatsEntry>, i: nat, m: Option<string>)
    requires i < |history|
    ensures UsageOf(history[..i + 1], m)
            == if history[i].model == m then AddEntry(UsageOf(history[..i], m), history[i]) else UsageOf(history[..i], m)
  {
    var h := history[..i + 1];
    assert h[..|h| - 1] == history[..i];
    var w := WithModel(history[..i], m);
    if history[i].model == m {
      assert WithModel(h, m) == w + [history[i]];
      assert (w + [history[i]])[..|w|] == w;
    } else {
      assert WithModel(h, m) == w + [];
      assert w + [] == w;
    }
  }

  function NoUsage(m: Option<string>): Usage { Usage(m, 0, 0, 0.0, 0) }

  /** The state of the `model_stats` dictionary of `api_model_usage` after the entries
      `h`: `order` is its key order, each record holds its model's totals, each model of
      `h` has a record and the models without one have no entry. */
  ghost predicate Tabulated(h: seq<StatsLog.StatsEntry>, table: map<Option<string>, Usage>,
                            order: seq<Option<string>>)
  {
    Totalled(h, table) && Ordered(h, table, order)
  }

  /** Each record holds its model's totals over `h`; models without one do not occur. */
  ghost predicate Totalled(h: seq<StatsLog.StatsEntry>, table: map<Option<string>, Usage>) {
    && (forall m :: m in table ==> table[m] == UsageOf(h, m) && table[m].count > 0)
    && (forall m :: m !in table ==> UsageOf(h, m) == NoUsage(m))
  }

  /** `order` lists the keys of `table` once each, and every model of `h` is a key. */
  ghost predicate Ordered(h: seq<StatsLog.StatsEntry>, table: map<Option<string>, Usage>,
                          order: seq<Option<string>>)
  {
    && (forall m :: m in table <==> m in order)
    && (forall a, b :: 0 <= a < b < |order| ==> order[a] != order[b])
    && (forall j :: 0 <= j < |h| ==> h[j].model in table)
  }

  /** The dictionary after counting entry `e`: a zero record is created for a new model,
      then the entry is added to its model's record. */
  function Tally(table: map<Option<string>, Usage>, e: StatsLog.StatsEntry): map<Option<string>, Usage> {
    var t1 := if e.model in table then table else table[e.model := NoUsage(e.model)];
    t1[e.model := AddEntry(t1[e.model], e)]
  }

  /** The key order after counting entry `e`: a new model goes last. */
  function Enlist(table: map<Option<string>, Usage>, order: seq<Option<string>>,
                  e: StatsLog.StatsEntry): seq<Option<string>> {
    if e.model in table then order else order + [e.model]
  }

  lemma TabulateRecords(history: seq<StatsLog.StatsEntry>, i: nat, table: map<Option<string>, Usage>,
                        t2: map<Option<string>, Usage>)
    requires i < |history| && t2 == Tally(table, history[i])
    requires Totalled(history[..i], table)
    ensures Totalled(history[..i + 1], t2)
  {
    var e := history[i];
    var t1 := if e.model in table then table else table[e.model := NoUsage(e.model)];
    assert t1[e.model] == UsageOf(history[..i], e.model);
    forall m | m in t2 ensures t2[m] == UsageOf(history[..i + 1], m) && t2[m].count > 0 {
      UsageStep(history, i, m);
    }
    forall m | m !in t2 ensures UsageOf(history[..i + 1], m) == NoUsage(m) {
      UsageStep(history, i, m);
    }
  }

  lemma TabulateKeys(history: seq<StatsLog.StatsEntry>, i: nat, table: map<Option<string>, Usage>,
                     order: seq<Option<string>>, t2: map<Option<string>, Usage>, o1: seq<Option<string>>)
    requires i < |history| && t2 == Tally(table, history[i]) && o1 == Enlist(table, order, history[i])
    requires Ordered(history[..i], table, order)
    ensures Ordered(history[..i + 1], t2, o1)
  {
    var e := history[i];
    forall j | 0 <= j < i ensures history[j].model in table {
      assert history[..i][j] == history[j];
    }
    forall m ensures m in t2 <==> m in o1 {
      assert m in o1 <==> m in order || m == e.model;
    }
    forall a, b | 0 <= a < b < |o1| ensures o1[a] != o1[b] {
      if b == |order| { assert o1[b] == e.model && o1[a] == order[a]; }
    }
    var h := history[..i + 1];
    forall j | 0 <= j < |h| ensures h[j].model in t2 {
      assert h[j] == history[j];
    }
  }

  /** Counting one more entry keeps the dictionary in step with the entries counted. */
  lemma TabulateStep(history: seq<StatsLog.StatsEntry>, i: nat, table: map<Option<string>, Usage>,
                     order: seq<Option<string>>)
    requires i < |history| && Tabulated(history[..i], table, order)
    ensures Tabulated(history[..i + 1], Tally(table, history[i]), Enlist(table, order, history[i]))
  {
    var t2 := Tally(table, history[i]);
    var o1 := Enlist(table, order, history[i]);
    TabulateRecords(history, i, table, t2);
    TabulateKeys(history, i, table, order, t2, o1);
  }

  /** `api_model_usage`: one record per distinct model, each holding that model's totals. */
  method ModelUsage(history: seq<StatsLog.StatsEntry>) returns (models: seq<Usage>)
    ensures forall k :: 0 <= k < |models| ==> models[k] == UsageOf(history, models[k].name)
    ensures forall a, b :: 0 <= a < b < |models| ==> models[a].name != models[b].name
    ensures forall j :: 0 <= j < |history| ==> Listed(models, history[j].model)
    ensures forall k :: 0 <= k < |models| ==> models[k].count > 0
  {
    var order: seq<Option<string>> := [];
    var table: map<Option<string>, Usage> := map[];
    for i := 0 to |history|
      invariant Tabulated(history[..i], table, order)
    {
      TabulateStep(history, i, table, order);
      table, order := Tally(table, history[i]), Enlist(table, order, history[i]);
    }
    assert history[..|history|] == history;
    models := Records(table, order);
    UsageListing(history, table, order, models);
  }

  /** Some record of `models` is that of model `m`. */
  predicate Listed(models: seq<Usage>, m: Option<string>) {
    exists k :: 0 <= k < |models| && models[k].name == m
  }

  /** The records of `table` in the key order `order`. */
  method Records(table: map<Option<string>, Usage>, order: seq<Option<string>>) returns (models: seq<Usage>)
    requires forall k :: 0 <= k < |order| ==> order[k] in table
    ensures |models| == |order|
    ensures forall k :: 0 <= k < |order| ==> models[k] == table[order[k]]
  {
    models := [];
    for k := 0 to |order|
      invariant |models| == k
      invariant forall q :: 0 <= q < k ==> models[q] == table[order[q]]
    {
      models := models + [table[order[k]]];
    }
  }

  /** Listing a dictionary that is in step with all of `history` gives one record per
      model, each with its totals, no model twice and none left out. */
  lemma UsageListing(history: seq<StatsLog.StatsEntry>, table: map<Option<string>, Usage>,
                     order: seq<Option<string>>, models: seq<Usage>)
    requires Tabulated(history, table, order)
    requires |models| == |order| && forall k :: 0 <= k < |order| ==> models[k] == table[order[k]]
    ensures forall k :: 0 <= k < |models| ==> models[k] == UsageOf(history, models[k].name)
    ensures forall a, b :: 0 <= a < b < |models| ==> models[a].name != models[b].name
    ensures forall j :: 0 <= j < |history| ==> Listed(models, history[j].model)
    ensures forall k :: 0 <= k < |models| ==> models[k].count > 0
  {
    forall k | 0 <= k < |models| ensures models[k].name == order[k] {
      assert order[k] in table;
    }
    forall j | 0 <= j < |history| ensures Listed(models, history[j].model) {
      var m := history[j].model;
      assert m in order;
      var k :| 0 <= k < |order| && order[k] == m;
      assert 0 <= k < |models| && models[k].name == m;
    }
  }

  // ---------------------------------------------------------------- GPU information

  datatype Gpu = Gpu(index: string, name: string, utilization: string, memoryUsed: string, memoryTotal: string)

  function TrimAll(parts: seq<string>): (r: seq<string>)
    ensures |r| == |parts|
    ensures forall k :: 0 <= k < |r| ==> r[k] == Trim(parts[k])
  {
    seq(|parts|, k requires 0 <= k < |parts| => Trim(parts[k]))
  }

  /** One line of `nvidia-smi --format=csv,noheader,nounits`: skipped when blank or
      when it has fewer than five comma-separated fields; otherwise the first five
      fields, trimmed, in order. */
  function GpuOfLine(line: string): (g: Option<Gpu>)
    ensures g.Some? <==> Trim(line) != "" && |Split(line, ',')| >= 5
    ensures g.Some? ==> var parts := Split(line, ',');
              g.value == Gpu(Trim(parts[0]), Trim(parts[1]), Trim(parts[2]), Trim(parts[3]), Trim(parts[4]))
  {
    if Trim(line) == "" then None
    else
      var parts := TrimAll(Split(line, ','));
      if |parts| >= 5 then Some(Gpu(parts[0], parts[1], parts[2], parts[3], parts[4])) else None
  }

  /** The records of the lines that yield one, in order. */
  function GpuRecords(lines: seq<string>): (gpus: seq<Gpu>)
    ensures |gpus| <= |lines|
  {
    if lines == [] then []
    else
      var last := GpuOfLine(lines[|lines| - 1]);
      GpuRecords(lines[..|lines| - 1]) + (if last.Some? then [last.value] else [])
  }

  /** A line written as comma-separated fields gives back those fields, trimmed. */
  lemma GpuLineRoundTrip(fields: seq<string>)
    requires |fields| >= 5
    requires forall k :: 0 <= k < |fields| ==> ',' !in fields[k]
    requires Trim(Join(fields, ",")) != ""
    ensures GpuOfLine(Join(fields, ",")) ==
              Some(Gpu(Trim(fields[0]), Trim(fields[1]), Trim(fields[2]), Trim(fields[3]), Trim(fields[4])))
  {
    SplitJoin(fields, ',');
  }

  /** `api_gpu_info` on the outcome of `nvidia-smi`. */
  datatype GpuAnswer = GpuList(gpus: seq<Gpu>) | GpuError(error: string)

  method GpuInfo(run: Exec) returns (answer: GpuAnswer)
    ensures run.Exited? && run.returncode == 0 <==> answer.GpuList?
    ensures answer.GpuList? ==> answer.gpus == GpuRecords(Split(Trim(run.stdout), '\n'))
  {
    if !run.Exited? {
      return GpuError(if run.ExecTimedOut? then "Timeout lors de la récupération des informations GPU" else run.detail);
    }
    if run.returncode != 0 {
      return GpuError("Impossible d'obtenir les informations GPU");
    }
    var lines := Split(Trim(run.stdout), '\n');
    var gpus: seq<Gpu> := [];
    for i := 0 to |lines|
      invariant gpus == GpuRecords(lines[..i])
    {
      assert lines[..i + 1][..i] == lines[..i];
      var line := lines[i];
      if Trim(line) == "" {
        continue;
      }
      var parts := TrimAll(Split(line, ','));
      if |parts| >= 5 {
        gpus := gpus + [Gpu(parts[0], parts[1], parts[2], parts[3], parts[4])];
      }
    }
    assert lines[..|lines|] == lines;
    return GpuList(gpus);
  }

  // ---------------------------------------------------------------- start-up repair

  /** `ConfigManager.get_config()['default_model']` with the `.get(..., 'none')` of
      `check_dependencies`: a missing or unreadable file reads as `llama3`. */
  function ConfiguredDefault(c: ConfigFile): string {
    match c
    case NoFile => "llama3"
    case Corrupt => "llama3"
    case Config(d) => d.GetOr("none")
  }

  /** The repair `check_dependencies` applies: a missing file is first created holding
      `llama3`; then, with local models, a default that is not among them becomes the
      first model, and with none the default becomes `"none"`. */
  function Repaired(c: ConfigFile, localModels: seq<string>): (r: ConfigFile)
    ensures localModels != [] ==> ConfiguredDefault(r) in localModels
    ensures localModels == [] ==> ConfiguredDefault(r) == "none"
    ensures r != NoFile
    ensures localModels != [] && ConfiguredDefault(c) in localModels ==>
              r == (if c == NoFile then Config(Some("llama3")) else c)
    ensures localModels != [] && ConfiguredDefault(if c == NoFile then Config(Some("llama3")) else c) !in localModels ==>
              r == Config(Some(localModels[0]))
    ensures localModels == [] && ConfiguredDefault(c) == "none" ==> r == c
  {
    var c1 := if c == NoFile then Config(Some("llama3")) else c;
    var current := ConfiguredDefault(c1);
    if localModels != [] then
      if current in localModels then c1 else Config(Some(localModels[0]))
    else if current != "none" then Config(Some("none"))
    else c1
  }

  /** Repairing an already repaired configuration changes nothing. */
  lemma RepairIdempotent(c: ConfigFile, localModels: seq<string>)
    ensures Repaired(Repaired(c, localModels), localModels) == Repaired(c, localModels)
  {
  }

  class AppConfig {
    var content: ConfigFile

    constructor(initial: ConfigFile)
      ensures content == initial
    {
      content := initial;
    }

    /** `check_dependencies` on the list of local model names (empty when listing them
        failed). */
    method CheckDependencies(localModels: seq<string>)
      modifies this
      ensures content == Repaired(old(content), localModels)
    {
      if content == NoFile {
        content := Config(Some("llama3"));
      }
      var current := ConfiguredDefault(content);
      if localModels != [] {
        if current !in localModels {
          content := Config(Some(localModels[0]));
        }
      } else if current != "none" {
        content := Config(Some("none"));
      }
    }
  }

  // ---------------------------------------------------------------- /execute

  datatype ExecAnswer = ExecError(error: string) | ExecOutput(stdout: string, stderr: string, returncode: int)

  const TimeoutStderr := "Erreur: La commande a dépassé le délai d'exécution (30 secondes)"

  /** `execute_command`: an empty command is refused without running anything; a
      command that runs past 30 seconds answers with empty output and status 124. */
  function ExecuteCommand(command: string, run: Exec): (a: ExecAnswer)
    ensures command == "" ==> a == ExecError("Commande vide")
    ensures command != "" && run.ExecTimedOut? ==> a == ExecOutput("", TimeoutStderr, 124)
    ensures command != "" && run.Exited? ==> a == ExecOutput(run.stdout, run.stderr, run.returncode)
    ensures a.ExecError? <==> command == "" || run.ExecRaised?
  {
    if command == "" then ExecError("Commande vide")
    else match run
      case Exited(code, out, err) => ExecOutput(out, err, code)
      case ExecTimedOut => ExecOutput("", TimeoutStderr, 124)
      case ExecRaised(d) => ExecError(d)
  }
}
