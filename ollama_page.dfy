/** The Ollama management page (`OllamaManager`): the tags shown for a model name, the
    download and test guards with their busy flags, the inference statistics, the
    statistics model selector, the model grid and the refresh timers. */
module OllamaPage {
  import opened Wrappers
  import opened Strings
  import Common

  /** The download request's timeout, in milliseconds. */
  const DownloadTimeout: nat := 600000
  /** The statistics refresh period, in milliseconds. */
  const RefreshInterval: nat := 30000
  /** The temperature used when the page has no slider. */
  const DefaultTemperature: real := 0.7
  /** The number of tokens a test always asks for. */
  const TestMaxTokens: nat := 500

  // ---------------------------------------------------------------------------
  // Model tags

  /** One check of `getModelTags`: the tag is pushed when the lower-cased name
      contains one of the patterns. */
  datatype TagRule = TagRule(patterns: seq<string>, tag: string)

  /** The checks in the order the code makes them: families, sizes, then features. */
  const TagRules: seq<TagRule> := [
    TagRule(["llama"], "llama"), TagRule(["mistral"], "mistral"), TagRule(["phi"], "phi"),
    TagRule(["gemma"], "gemma"), TagRule(["chat"], "chat"), TagRule(["code"], "code"),
    TagRule(["neural"], "neural"), TagRule(["dolph"], "dolphin"), TagRule(["qwen"], "qwen"),
    TagRule(["falcon"], "falcon"), TagRule(["stable"], "stable"), TagRule(["wizard"], "wizard"),
    TagRule(["mpt"], "mpt"), TagRule(["openchat"], "openchat"), TagRule(["solar"], "solar"),
    TagRule(["7b"], "7B"), TagRule(["13b"], "13B"), TagRule(["34b"], "34B"), TagRule(["70b"], "70B"),
    TagRule(["8b"], "8B"), TagRule(["2b"], "2B"), TagRule(["3b"], "3B"),
    TagRule(["mini"], "mini"), TagRule(["tiny"], "tiny"), TagRule(["small"], "small"),
    TagRule(["large"], "large"), TagRule(["vision", "llava"], "vision"),
    TagRule(["quantized", "-q"], "quantized")
  ]

  predicate Matches(lowerName: string, rule: TagRule) {
    exists k :: 0 <= k < |rule.patterns| && Contains(lowerName, rule.patterns[k])
  }

  /** The tags the rules give, in rule order. */
  function Tags(lowerName: string, rules: seq<TagRule>): (r: seq<string>)
    ensures |r| <= |rules|
  {
    if rules == [] then []
    else
      var last := rules[|rules| - 1];
      Tags(lowerName, rules[..|rules| - 1]) + (if Matches(lowerName, last) then [last.tag] else [])
  }

  lemma TagsSnoc(lowerName: string, rules: seq<TagRule>, rule: TagRule)
    ensures Tags(lowerName, rules + [rule]) == Tags(lowerName, rules) + (if Matches(lowerName, rule) then [rule.tag] else [])
  {
    assert (rules + [rule])[..|rules|] == rules;
  }

  /** A tag is emitted exactly when one of the rules giving it matches. */
  lemma {:induction false} TagsIff(lowerName: string, rules: seq<TagRule>, tag: string)
    ensures tag in Tags(lowerName, rules) <==>
              exists k :: 0 <= k < |rules| && rules[k].tag == tag && Matches(lowerName, rules[k])
  {
    if rules != [] {
      var init := rules[..|rules| - 1];
      TagsIff(lowerName, init, tag);
      assert forall k :: 0 <= k < |init| ==> init[k] == rules[k];
      if tag in Tags(lowerName, rules) && tag !in Tags(lowerName, init) {
        assert rules[|rules| - 1].tag == tag && Matches(lowerName, rules[|rules| - 1]);
      }
    }
  }

  /** Rules with distinct tags emit each tag at most once. */
  lemma {:induction false} TagsDistinct(lowerName: string, rules: seq<TagRule>)
    requires forall i, j :: 0 <= i < j < |rules| ==> rules[i].tag != rules[j].tag
    ensures forall i, j :: 0 <= i < j < |Tags(lowerName, rules)| ==>
              Tags(lowerName, rules)[i] != Tags(lowerName, rules)[j]
  {
    if rules != [] {
      var init := rules[..|rules| - 1];
      var last := rules[|rules| - 1];
      TagsDistinct(lowerName, init);
      TagsIff(lowerName, init, last.tag);
    }
  }

  /** The checks give distinct tags. */
  lemma TagRulesDistinct()
    ensures forall i, j :: 0 <= i < j < |TagRules| ==> TagRules[i].tag != TagRules[j].tag
  {
  }

  /** `getModelTags`: the checks are made one after the other on the lower-cased name,
      pushing each matching tag. */
  method GetModelTags(modelName: string) returns (tags: seq<string>)
    ensures tags == Tags(Lower(modelName), TagRules)
  {
    tags := ApplyRules(Lower(modelName), TagRules);
  }

  /** Makes the checks of `rules` in order, pushing the tag of each one that matches. */
  method ApplyRules(lowerName: string, rules: seq<TagRule>) returns (tags: seq<string>)
    ensures tags == Tags(lowerName, rules)
  {
    tags := [];
    for i := 0 to |rules|
      invariant tags == Tags(lowerName, rules[..i])
    {
      var rule := rules[i];
      assert rules[..i + 1] == rules[..i] + [rule];
      TagsSnoc(lowerName, rules[..i], rule);
      if exists k :: 0 <= k < |rule.patterns| && Contains(lowerName, rule.patterns[k]) {
        tags := tags + [rule.tag];
      }
    }
    assert rules[..|rules|] == rules;
  }

  /** The tags of a name never repeat, and a tag shows exactly when one of its patterns
      occurs in the lower-cased name. */
  lemma ModelTagsProperties(modelName: string, tag: string)
    ensures var tags := Tags(Lower(modelName), TagRules);
            (forall i, j :: 0 <= i < j < |tags| ==> tags[i] != tags[j])
            && (tag in tags <==> exists k :: 0 <= k < |TagRules| && TagRules[k].tag == tag
                                            && Matches(Lower(modelName), TagRules[k]))
  {
    TagRulesDistinct();
    TagsDistinct(Lower(modelName), TagRules);
    TagsIff(Lower(modelName), TagRules, tag);
  }

  /** `llama3:8b` is tagged as a llama model of 8B parameters. */
  lemma Llama3Tagged(modelName: string)
    ensures modelName == "llama3:8b" ==>
              "llama" in Tags(Lower(modelName), TagRules) && "8B" in Tags(Lower(modelName), TagRules)
  {
    if modelName == "llama3:8b" {
      var lower := Lower(modelName);
      assert lower == modelName;
      assert OccursAt(lower, TagRules[0].patterns[0], 0);
      TaggedBy(lower, 0);
      assert lower[7..] == "8b";
      assert OccursAt(lower, TagRules[19].patterns[0], 7);
      TaggedBy(lower, 19);
    }
  }

  /** A name passing the check at `k` carries that check's tag. */
  lemma TaggedBy(lowerName: string, k: nat)
    requires k < |TagRules| && Matches(lowerName, TagRules[k])
    ensures TagRules[k].tag in Tags(lowerName, TagRules)
  {
    TagsIff(lowerName, TagRules, TagRules[k].tag);
  }

  // ---------------------------------------------------------------------------
  // Download and test

  /** How a request ends: rejected with a message (an HTTP error status, a network
      failure, or the daemon found not running), or answered. */
  datatype Reply<T> = Rejected(message: string) | Answered(answer: T)

  /** The answer of `/api/download_model`. */
  datatype DownloadAnswer = DownloadAnswer(error: string, success: bool)

  /** The answer of `/api/test_model`. */
  datatype TestAnswer = TestAnswer(error: string, success: bool, response: string)

  /** The body of a test request. */
  datatype TestRequest = TestRequest(model: string, prompt: string, temperature: real, maxTokens: nat)

  datatype Level = Info | Done | Warning | Failure

  /** A toast message. */
  datatype Toast = Toast(text: string, level: Level)

  /** What the test result area shows once a test has finished. */
  datatype TestView = TestOutput(response: string) | DaemonDown | TestError(message: string)

  /** The message of the error thrown when the daemon is not running. */
  function NotRunning(): string {
    "Ollama n'est pas en cours d'exécution"
  }

  /** The HTTP-error message a failed request is rejected with. */
  function HttpError(status: int): string {
    "Erreur HTTP: " + IntToString(status)
  }

  /** The toast a finished download shows. */
  function DownloadToast(modelName: string, reply: Reply<DownloadAnswer>): (t: Toast)
    ensures t.level == Done <==> reply.Answered? && reply.answer.error == "" && reply.answer.success
  {
    match reply
    case Rejected(message) =>
      if message == NotRunning() then Toast("Erreur: " + NotRunning() + ". Exécutez \"ollama serve\""
                                            + " dans un terminal.", Failure)
      else Toast("Erreur de connexion: " + message, Failure)
    case Answered(answer) =>
      if answer.error != "" then Toast("Erreur: " + answer.error, Failure)
      else if answer.success then Toast("Modèle " + modelName + " téléchargé avec succès", Done)
      else Toast("Erreur lors du téléchargement: " + "Erreur inconnue", Failure)
  }

  /** What a finished test shows. */
  function TestOutcome(reply: Reply<TestAnswer>): (v: TestView)
    ensures v.TestOutput? <==> reply.Answered? && reply.answer.error == "" && reply.answer.success
    ensures v.DaemonDown? <==> reply.Answered? && Common.IsOllamaConnectionError(reply.answer.error)
  {
    match reply
    case Rejected(message) => TestError("Erreur de connexion: " + message)
    case Answered(answer) =>
      if answer.error != "" then
        if Common.IsOllamaConnectionError(answer.error) then DaemonDown
        else TestError("Erreur: " + answer.error)
      else if answer.success then TestOutput(answer.response)
      else TestError("Erreur: Erreur inconnue")
  }

  /** A test selection that names no model. */
  predicate NoModelChosen(model: string) {
    model == "" || model == "loading" || model == "none"
  }

  /** The page's own state: the busy flags, the model name input, and the refresh
      timers (with the set of timers cleared so far standing for `clearInterval`). */
  class Manager {
    var downloadingModel: bool
    var testingModel: bool
    var modelInput: string
    var refreshTimers: seq<int>
    var cleared: set<int>

    /** The state `init` leaves: nothing running, one refresh timer registered. */
    constructor(timer: int)
      ensures !downloadingModel && !testingModel && modelInput == ""
      ensures refreshTimers == [timer] && cleared == {}
    {
      downloadingModel := false;
      testingModel := false;
      modelInput := "";
      refreshTimers := [timer];
      cleared := {};
    }

    /** The start of `downloadModel`: an empty name and a download already running are
        refused with a warning; otherwise the busy flag is set. */
    method StartDownload(modelName: string) returns (started: bool, warning: Option<Toast>)
      modifies this`downloadingModel
      ensures started <==> modelName != "" && !old(downloadingModel)
      ensures started <==> warning.None?
      ensures downloadingModel == (old(downloadingModel) || started)
    {
      if modelName == "" {
        return false, Some(Toast("Veuillez entrer un nom de modèle", Warning));
      }
      if downloadingModel {
        return false, Some(Toast("Un téléchargement est déjà en cours", Warning));
      }
      downloadingModel := true;
      return true, None;
    }

    /** The end of `downloadModel`: the busy flag is cleared on every path; a success
        empties the name input and reloads the model list, and a daemon found not
        running replaces the grid with an alert. */
    method FinishDownload(modelName: string, reply: Reply<DownloadAnswer>)
      returns (toast: Toast, reload: bool, gridAlert: bool)
      modifies this`downloadingModel, this`modelInput
      ensures !downloadingModel
      ensures toast == DownloadToast(modelName, reply)
      ensures reload <==> toast.level == Done
      ensures gridAlert <==> reply == Rejected(NotRunning())
      ensures modelInput == (if reload then "" else old(modelInput))
    {
      downloadingModel := false;
      toast := DownloadToast(modelName, reply);
      gridAlert := reply.Rejected? && reply.message == NotRunning();
      reload := reply.Answered? && reply.answer.error == "" && reply.answer.success;
      if reload {
        modelInput := "";
      }
    }

    /** The start of `testModel`: no model chosen, a blank prompt and a test already
        running are refused; otherwise the flag is set and the request always asks for
        500 tokens. */
    method StartTest(model: string, promptInput: string, temperature: real)
      returns (request: Option<TestRequest>, refusal: Option<Toast>)
      modifies this`testingModel
      ensures request.Some? <==> !NoModelChosen(model) && Trim(promptInput) != "" && !old(testingModel)
      ensures request.Some? <==> refusal.None?
      ensures request.Some? ==> request.value == TestRequest(model, Trim(promptInput), temperature, TestMaxTokens)
      ensures testingModel == (old(testingModel) || request.Some?)
    {
      var prompt := Trim(promptInput);
      if NoModelChosen(model) {
        return None, Some(Toast("Erreur: Aucun modèle sélectionné", Failure));
      }
      if prompt == "" {
        return None, Some(Toast("Erreur: Le prompt est vide", Failure));
      }
      if testingModel {
        return None, Some(Toast("Un test est déjà en cours", Warning));
      }
      testingModel := true;
      return Some(TestRequest(model, prompt, temperature, TestMaxTokens)), None;
    }

    /** The end of `testModel`: the flag is cleared on every path; a success reloads the
        statistics and makes the model under test the default. */
    method FinishTest(model: string, reply: Reply<TestAnswer>) returns (view: TestView, makeDefault: Option<string>)
      modifies this`testingModel
      ensures !testingModel
      ensures view == TestOutcome(reply)
      ensures makeDefault == (if view.TestOutput? then Some(model) else None)
    {
      testingModel := false;
      view := TestOutcome(reply);
      makeDefault := if view.TestOutput? then Some(model) else None;
    }

    /** `cleanup`: every refresh timer is cleared and the list is emptied. */
    method Cleanup()
      modifies this`refreshTimers, this`cleared
      ensures refreshTimers == []
      ensures cleared == old(cleared) + set i | 0 <= i < |old(refreshTimers)| :: old(refreshTimers)[i]
    {
      var timers := refreshTimers;
      for i := 0 to |timers|
        invariant cleared == old(cleared) + set k | 0 <= k < i :: timers[k]
      {
        cleared := cleared + {timers[i]};
      }
      refreshTimers := [];
    }
  }

  // ---------------------------------------------------------------------------
  // Inference statistics

  /** One record of the inference history; a missing length or time counts as 0. */
  datatype StatsEntry = StatsEntry(model: string, outputLength: Option<int>, executionTime: Option<real>)

  /** The answer of `/api/stats/inference`. */
  datatype StatsAnswer = StatsAnswer(error: string, history: Option<seq<StatsEntry>>)

  /** The figures the statistics panel shows. */
  datatype Summary = Summary(count: nat, averageTime: real, averageTokens: real, memory: real)

  /** The entries of the selected model, or all of them for `all`, in order. */
  function Filtered(history: seq<StatsEntry>, selected: string): (r: seq<StatsEntry>)
    ensures |r| <= |history|
    ensures selected == "all" ==> r == history
    ensures selected != "all" ==> forall k :: 0 <= k < |r| ==> r[k].model == selected && r[k] in history
    ensures selected != "all" ==> forall k :: 0 <= k < |history| && history[k].model == selected ==> history[k] in r
  {
    if selected == "all" then history
    else if history == [] then []
    else
      var init := history[..|history| - 1];
      var rest := Filtered(init, selected);
      var last := history[|history| - 1];
      assert forall k :: 0 <= k < |history| - 1 ==> init[k] == history[k];
      if last.model == selected then rest + [last] else rest
  }

  /** The filter keeps the order of the history: filtering a concatenation is
      concatenating the filtered parts, and one entry is kept iff it is selected. */
  lemma {:induction false} FilteredAppend(a: seq<StatsEntry>, b: seq<StatsEntry>, selected: string)
    ensures Filtered(a + b, selected) == Filtered(a, selected) + Filtered(b, selected)
    ensures |b| == 1 ==>
              Filtered(b, selected) == if selected == "all" || b[0].model == selected then b else []
    decreases |b|
  {
    if selected != "all" {
      if b == [] {
        assert a + b == a;
      } else {
        var init := b[..|b| - 1];
        var last := b[|b| - 1];
        assert (a + b)[..|a + b| - 1] == a + init;
        assert (a + b)[|a + b| - 1] == last;
        FilteredAppend(a, init, selected);
        if |b| == 1 {
          assert init == [];
        }
      }
    }
  }

  /** Filtering for one model keeps every entry of that model as often as the
      history holds it and drops every other entry. */
  lemma {:induction false} FilteredCounts(history: seq<StatsEntry>, selected: string)
    requires selected != "all"
    ensures forall e :: multiset(Filtered(history, selected))[e]
                          == if e.model == selected then multiset(history)[e] else 0
    decreases |history|
  {
    if history != [] {
      var init := history[..|history| - 1];
      var last := history[|history| - 1];
      assert history == init + [last];
      FilteredCounts(init, selected);
      assert multiset(history) == multiset(init) + multiset{last};
    }
  }

  /** The sum of the output lengths. */
  function TotalTokens(entries: seq<StatsEntry>): (r: int)
    ensures entries == [] ==> r == 0
    ensures (forall k :: 0 <= k < |entries| ==> entries[k].outputLength.GetOr(0) >= 0) ==>
              0 <= r && forall k :: 0 <= k < |entries| ==> entries[k].outputLength.GetOr(0) <= r
  {
    if entries == [] then 0
    else TotalTokens(entries[..|entries| - 1]) + entries[|entries| - 1].outputLength.GetOr(0)
  }

  /** The sum of the execution times. */
  function TotalTime(entries: seq<StatsEntry>): (r: real)
    ensures entries == [] ==> r == 0.0
    ensures (forall k :: 0 <= k < |entries| ==> entries[k].executionTime.GetOr(0.0) >= 0.0) ==>
              0.0 <= r && forall k :: 0 <= k < |entries| ==> entries[k].executionTime.GetOr(0.0) <= r
  {
    if entries == [] then 0.0
    else TotalTime(entries[..|entries| - 1]) + entries[|entries| - 1].executionTime.GetOr(0.0)
  }

  /** The totals add up over concatenation, so each reduce is a sum over the entries. */
  lemma {:induction false} TotalsAppend(a: seq<StatsEntry>, b: seq<StatsEntry>)
    ensures TotalTokens(a + b) == TotalTokens(a) + TotalTokens(b)
    ensures TotalTime(a + b) == TotalTime(a) + TotalTime(b)
    decreases |b|
  {
    if b == [] {
      assert a + b == a;
    } else {
      var init := b[..|b| - 1];
      assert (a + b)[..|a + b| - 1] == a + init;
      TotalsAppend(a, init);
    }
  }

  /** Entries without a length or a time contribute nothing. */
  lemma {:induction false} TotalsOfEmptyEntries(entries: seq<StatsEntry>)
    requires forall k :: 0 <= k < |entries| ==> entries[k].outputLength.None? && entries[k].executionTime.None?
    ensures TotalTokens(entries) == 0 && TotalTime(entries) == 0.0
  {
    if entries != [] {
      var init := entries[..|entries| - 1];
      assert forall k :: 0 <= k < |init| ==> init[k] == entries[k];
      TotalsOfEmptyEntries(init);
    }
  }

  /** `loadInferenceStats`: zeros on a failure, an error or an empty history; otherwise
      the count of the selected entries with the average time and length (0 when none
      is selected), and 1.5 times the average length as the memory estimate. */
  function StatsSummary(reply: Reply<StatsAnswer>, selected: string): (s: Summary)
    ensures reply.Rejected? || reply.answer.error != "" ==> s == Summary(0, 0.0, 0.0, 0.0)
    ensures reply.Answered? && (reply.answer.history.None? || reply.answer.history.value == []) ==>
              s == Summary(0, 0.0, 0.0, 0.0)
    ensures reply.Answered? && reply.answer.error == "" && reply.answer.history.Some? ==>
              s.count == |Filtered(reply.answer.history.value, selected)|
    ensures s.count == 0 ==> s == Summary(0, 0.0, 0.0, 0.0)
    ensures s.count > 0 ==> s.memory == 1.5 * s.averageTokens
  {
    if reply.Rejected? || reply.answer.error != "" then Summary(0, 0.0, 0.0, 0.0)
    else if reply.answer.history.None? || reply.answer.history.value == [] then Summary(0, 0.0, 0.0, 0.0)
    else
      var entries := Filtered(reply.answer.history.value, selected);
      var count := |entries|;
      if count == 0 then Summary(0, 0.0, 0.0, 0.0)
      else
        var tokens := TotalTokens(entries) as real / count as real;
        Summary(count, TotalTime(entries) / count as real, tokens, 1.5 * tokens)
  }

  /** With every model selected, the figures cover the whole history. */
  lemma AllCoversHistory(answer: StatsAnswer)
    requires answer.error == "" && answer.history.Some? && answer.history.value != []
    ensures StatsSummary(Answered(answer), "all").count == |answer.history.value|
    ensures StatsSummary(Answered(answer), "all").averageTime
            == TotalTime(answer.history.value) / |answer.history.value| as real
  {
  }

  // ---------------------------------------------------------------------------
  // The statistics model selector

  /** The `statsModelSelect` element: its option values and selected index. */
  class StatsSelect {
    var options: seq<string>
    var selectedIndex: int

    /** The selector as the page starts: the `all` option alone. */
    constructor()
      ensures options == ["all"] && selectedIndex == 0
    {
      options := ["all"];
      selectedIndex := 0;
    }

    /** The selector's value: the selected option's, or "" without a selection. */
    function Value(): string
      reads this
    {
      if 0 <= selectedIndex < |options| then options[selectedIndex] else ""
    }

    /** `updateStatsModelSelect`: `all` followed by the models in order; the previous
        value stays selected when an option still has it, and `all` is selected
        otherwise. */
    method UpdateStatsModelSelect(models: seq<string>)
      modifies this
      ensures options == ["all"] + models
      ensures 0 <= selectedIndex < |options|
      ensures Value() == (if old(Value()) != "" && old(Value()) in options then old(Value()) else "all")
      ensures forall k :: 0 <= k < selectedIndex ==> options[k] != Value()
    {
      var selectedValue := Value();
      options := ["all"];
      selectedIndex := 0;
      for i := 0 to |models|
        invariant options == ["all"] + models[..i]
        invariant selectedIndex == 0
      {
        options := options + [models[i]];
        assert models[..i + 1] == models[..i] + [models[i]];
      }
      assert models[..|models|] == models;
      if selectedValue != "" {
        var i := 0;
        while i < |options|
          invariant 0 <= i <= |options|
          invariant selectedIndex == 0
          invariant forall k :: 0 <= k < i ==> options[k] != selectedValue
        {
          if options[i] == selectedValue {
            selectedIndex := i;
            break;
          }
          i := i + 1;
        }
      }
    }
  }

  // ---------------------------------------------------------------------------
  // The model grid

  /** The action a card offers besides testing. */
  datatype CardAction = Delete | MakeDefault

  /** One card of the grid. */
  datatype Card = Card(name: string, isDefault: bool, action: CardAction, tags: seq<string>)

  /** What the grid shows: the error alert and the "no model" notice of `loadModelsGrid`,
      the page's warning asking to start the daemon, or the cards. */
  datatype Grid = GridError(error: string) | NoModels | ServiceWarning | Cards(cards: seq<Card>)

  /** The card of a model: the default one is badged and offers deletion, every other
      one offers to become the default. */
  function CardFor(m: Common.ModelInfo, defaultName: string): (c: Card)
    ensures c.name == m.name
    ensures c.isDefault <==> m.name == defaultName
    ensures c.action == Delete <==> c.isDefault
  {
    var isDefault := m.name == defaultName;
    Card(m.name, isDefault, if isDefault then Delete else MakeDefault, Tags(Lower(m.name), TagRules))
  }

  /** `loadModelsGrid`: the error, a notice without models, or one card per model, in
      order. */
  function ModelsGrid(data: Common.Listing): (g: Grid)
    ensures data.error != "" ==> g == GridError(data.error)
    ensures data.error == "" && (data.models.None? || data.models.value == []) ==> g == NoModels
    ensures g.Cards? ==> data.models.Some? && |g.cards| == |data.models.value|
    ensures g.Cards? ==> forall k :: 0 <= k < |g.cards| ==>
              g.cards[k].name == data.models.value[k].name
              && (g.cards[k].action == Delete <==> data.models.value[k].name == data.defaultName)
  {
    if data.error != "" then GridError(data.error)
    else if data.models.None? || data.models.value == [] then NoModels
    else
      var models := data.models.value;
      Cards(seq(|models|, k requires 0 <= k < |models| => CardFor(models[k], data.defaultName)))
  }

  /** At most one card is marked default when the names are distinct. */
  lemma OneDefaultCard(data: Common.Listing)
    requires data.models.Some?
    requires forall i, j :: 0 <= i < j < |data.models.value| ==> data.models.value[i].name != data.models.value[j].name
    ensures ModelsGrid(data).Cards? ==>
              forall i, j :: 0 <= i < j < |ModelsGrid(data).cards| ==>
                !(ModelsGrid(data).cards[i].isDefault && ModelsGrid(data).cards[j].isDefault)
  {
  }

  /** The model names the grid passes to the statistics selector. */
  function ModelNames(models: seq<Common.ModelInfo>): (names: seq<string>)
    ensures |names| == |models|
    ensures forall k :: 0 <= k < |models| ==> names[k] == models[k].name
  {
    seq(|models|, k requires 0 <= k < |models| => models[k].name)
  }

  /** The grid shown once the model list has been loaded, refreshing the statistics
      selector when there are cards. */
  method LoadModelsGrid(select: StatsSelect, data: Common.Listing) returns (grid: Grid)
    modifies select
    ensures grid == ModelsGrid(data)
    ensures grid.Cards? ==> select.options == ["all"] + ModelNames(data.models.value)
    ensures !grid.Cards? ==> select.options == old(select.options) && select.selectedIndex == old(select.selectedIndex)
  {
    grid := ModelsGrid(data);
    if grid.Cards? {
      select.UpdateStatsModelSelect(ModelNames(data.models.value));
    }
  }

  /** What the page's `loadModelsList` callback shows: a warning when the list failed or
      is empty, the grid otherwise. */
  function ListingView(data: Common.Listing): (g: Grid)
    ensures g.Cards? <==> data.error == "" && data.models.Some? && data.models.value != []
    ensures g.Cards? ==> g == ModelsGrid(data)
    ensures !g.Cards? ==> g == ServiceWarning
  {
    if data.error != "" || data.models.None? || data.models.value == [] then ServiceWarning
    else ModelsGrid(data)
  }
}
