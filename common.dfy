/** The browser-side helpers shared by every page of the console (the `AssistantIA`
    namespace): recognising a daemon that is down, shortening texts, the theme switch,
    the cached model list and the model selector it fills, and the default-model request. */
module Common {
  import opened Wrappers
  import opened Strings

  /** How long a fetched model list is served from the cache, in milliseconds. */
  const CacheDuration: int := 60000

  /** Default length kept by `TruncateText`. */
  const TruncateLength: nat := 100

  /** Recognises the error texts that mean the Ollama daemon cannot be reached.
      The fourth pattern of the code extends the third, so three patterns decide. */
  function IsOllamaConnectionError(msg: string): (r: bool)
    ensures msg == "" ==> !r
    ensures r <==> msg != "" && (Contains(Lower(msg), "localhost:11434")
                                 || Contains(Lower(msg), "connection refused")
                                 || Contains(Lower(msg), "ollama n'est pas"))
  {
    if msg == "" then false
    else
      var s := Lower(msg);
      var longest := "ollama n'est pas disponible";
      assert longest == "ollama n'est pas" + " disponible";
      assert Contains(s, longest) ==> Contains(s, "ollama n'est pas") by {
        if Contains(s, longest) {
          ContainsPrefixOf(s, "ollama n'est pas", " disponible");
        }
      }
      Contains(s, "localhost:11434") || Contains(s, "connection refused")
      || Contains(s, "ollama n'est pas") || Contains(s, longest)
  }

  /** A text longer than `maxLength` is cut to its first `maxLength` characters
      followed by an ellipsis; a shorter one is kept. */
  function TruncateText(text: string, maxLength: nat): (r: string)
    ensures |text| <= maxLength ==> r == text
    ensures |text| > maxLength ==>
              |r| == maxLength + 3 && r[..maxLength] == text[..maxLength] && EndsWith(r, "...")
  {
    if text == "" then ""
    else if |text| <= maxLength then text
    else text[..maxLength] + "..."
  }

  /** Truncating a truncated text changes nothing. */
  lemma TruncateIdempotent(text: string, maxLength: nat)
    ensures TruncateText(TruncateText(text, maxLength), maxLength) == TruncateText(text, maxLength)
  {
    if |text| > maxLength {
      var r := TruncateText(text, maxLength);
      assert r[..maxLength] + "..." == r;
    }
  }

  /** The theme after a click on the switch: dark turns light, anything else turns dark. */
  function Toggled(theme: string): (r: string)
    ensures r == "dark" || r == "light"
    ensures r != theme
    ensures r == "light" <==> theme == "dark"
  {
    if theme == "dark" then "light" else "dark"
  }

  /** Two clicks restore either of the two themes. */
  lemma ToggleTwice(theme: string)
    requires theme == "dark" || theme == "light"
    ensures Toggled(Toggled(theme)) == theme
  {
  }

  /** One model of a `/api/models` answer; size and date only decorate the option. */
  datatype ModelInfo = ModelInfo(name: string)

  /** A `/api/models` answer: an error text ("" when absent), the model list (absent or
      present) and the configured default ("" when absent). */
  datatype Listing = Listing(error: string, models: Option<seq<ModelInfo>>, defaultName: string)

  /** An option of a model selector; `isDefault` mirrors its `data-is-default` attribute. */
  datatype Choice = Choice(value: string, text: string, isDefault: bool)

  /** The option a model gets: its name, labelled ` (défaut)` when it is the default. */
  function OptionFor(m: ModelInfo, defaultName: string): (c: Choice)
    ensures c.value == m.name
    ensures c.isDefault <==> m.name == defaultName
    ensures c.text == m.name || (c.isDefault && c.text == m.name + " (défaut)")
  {
    if m.name == defaultName then Choice(m.name, m.name + " (défaut)", true)
    else Choice(m.name, m.name, false)
  }

  /** One option per model, in the order of the list. */
  function ModelOptions(models: seq<ModelInfo>, defaultName: string): (r: seq<Choice>)
    ensures |r| == |models|
    ensures forall k :: 0 <= k < |r| ==> r[k] == OptionFor(models[k], defaultName)
  {
    seq(|models|, k requires 0 <= k < |models| => OptionFor(models[k], defaultName))
  }

  /** Index of the last model called `name`, or -1. */
  function LastMatch(models: seq<ModelInfo>, name: string): (r: int)
    ensures -1 <= r < |models|
    ensures r >= 0 ==> models[r].name == name && forall k :: r < k < |models| ==> models[k].name != name
    ensures r == -1 ==> forall k :: 0 <= k < |models| ==> models[k].name != name
  {
    if models == [] then -1
    else if models[|models| - 1].name == name then |models| - 1
    else LastMatch(models[..|models| - 1], name)
  }

  /** Index of the first model called `name`, or -1. */
  function FirstMatch(models: seq<ModelInfo>, name: string): (r: int)
    ensures -1 <= r < |models|
    ensures r >= 0 ==> models[r].name == name && forall k :: 0 <= k < r ==> models[k].name != name
    ensures r == -1 ==> forall k :: 0 <= k < |models| ==> models[k].name != name
  {
    if models == [] then -1
    else
      var f := FirstMatch(models[..|models| - 1], name);
      if f >= 0 then f
      else if models[|models| - 1].name == name then |models| - 1
      else -1
  }

  /** The option a single-choice selector shows once every option is appended, as the
      HTML selectedness rules decide: the last option marked selected (the one naming the
      current model), and otherwise the first option. It is never -1, so the code's later
      fallback to the default model, guarded by `selectedIndex < 0`, never runs. */
  function DomSelected(models: seq<ModelInfo>, current: string): (r: int)
    requires models != []
    ensures 0 <= r < |models|
    ensures (exists k :: 0 <= k < |models| && models[k].name == current) ==> models[r].name == current
    ensures (forall k :: 0 <= k < |models| ==> models[k].name != current) ==> r == 0
  {
    var l := LastMatch(models, current);
    if l >= 0 then l else 0
  }

  /** With two models, no current model and the second one configured as default, the
      selector as written shows the first model. */
  lemma DomSelectedIgnoresDefault(a: string, b: string)
    requires a != "" && b != "" && a != b
    ensures DomSelected([ModelInfo(a), ModelInfo(b)], "") == 0
    ensures Selected([ModelInfo(a), ModelInfo(b)], "", b) == 1
  {
    var models := [ModelInfo(a), ModelInfo(b)];
    assert models[1].name != "" && models[0].name != "";
    assert FirstMatch(models[..1], b) == -1 by { assert models[..1][0].name == a; }
  }

  /** The intended selection: the current model when listed, otherwise the configured
      default when listed, otherwise the first option. */
  function Selected(models: seq<ModelInfo>, current: string, defaultName: string): (r: int)
    requires models != []
    ensures 0 <= r < |models|
    ensures (exists k :: 0 <= k < |models| && models[k].name == current) ==> models[r].name == current
    ensures (forall k :: 0 <= k < |models| ==> models[k].name != current) && defaultName != ""
            && (exists k :: 0 <= k < |models| && models[k].name == defaultName)
            ==> models[r].name == defaultName
    ensures (forall k :: 0 <= k < |models| ==> models[k].name != current && models[k].name != defaultName)
            ==> r == 0
  {
    var l := LastMatch(models, current);
    if l >= 0 then l
    else
      var f := FirstMatch(models, defaultName);
      if defaultName != "" && f >= 0 then f else 0
  }

  /** The model list is usable: no error and at least one model. */
  predicate HasModels(data: Listing) {
    data.error == "" && data.models.Some? && data.models.value != []
  }

  /** Whether a `/api/models` answer (or a failed request) shows a running daemon. */
  function RunningFrom(fetched: Result<Listing, string>): (r: bool)
    ensures r <==> fetched.Ok? && !IsOllamaConnectionError(fetched.value.error)
                   && fetched.value.models.Some? && fetched.value.models.value != []
  {
    match fetched
    case Err(_) => false
    case Ok(data) =>
      if data.error != "" && IsOllamaConnectionError(data.error) then false
      else data.models.Some? && |data.models.value| > 0
  }

  /** A name the default-model request accepts. */
  predicate UsableModelName(name: string) {
    name != "" && name != "none" && name != "loading"
  }

  /** The answer to a `/api/set-default-model` request. */
  datatype SetReply = HttpFailure(status: int) | NetworkFailure(message: string) | Answer(success: bool, error: string)

  /** A model selector element. */
  class ModelSelect {
    var options: seq<Choice>
    var selectedIndex: int
    var disabled: bool

    constructor()
      ensures options == [] && selectedIndex == -1 && !disabled
    {
      options := [];
      selectedIndex := -1;
      disabled := false;
    }

    /** Empties the selector and puts one `none` option with the given text in it. */
    method ShowNone(text: string)
      modifies this
      ensures options == [Choice("none", text, false)] && selectedIndex == 0 && !disabled
    {
      options := [Choice("none", text, false)];
      selectedIndex := 0;
      disabled := false;
    }

    /** Appends one option per model, marking selected the one naming the current model:
        the selector then shows the last one marked, or the first option. */
    method Fill(models: seq<ModelInfo>, defaultName: string, current: string) returns (matched: bool)
      requires options == [] && selectedIndex == -1
      modifies this`options, this`selectedIndex
      ensures options == ModelOptions(models, defaultName)
      ensures matched <==> LastMatch(models, current) >= 0
      ensures models != [] ==> selectedIndex == DomSelected(models, current)
    {
      matched := false;
      for i := 0 to |models|
        invariant |options| == i
        invariant forall k :: 0 <= k < i ==> options[k] == OptionFor(models[k], defaultName)
        invariant matched <==> LastMatch(models[..i], current) >= 0
        invariant i == 0 ==> selectedIndex == -1
        invariant i > 0 ==> selectedIndex == DomSelected(models[..i], current)
      {
        assert models[..i + 1][..i] == models[..i];
        options := options + [OptionFor(models[i], defaultName)];
        if models[i].name == current {
          selectedIndex := i;
          matched := true;
        } else if selectedIndex < 0 {
          selectedIndex := 0;
        }
      }
      assert models[..|models|] == models;
    }

    /** The fallback after filling: when nothing is selected and a default is named, the
        first option whose value is the default is selected; otherwise the selection stays. */
    method SelectDefaultIfNone(value: string)
      modifies this`selectedIndex
      ensures old(selectedIndex) >= 0 || value == "" ==> selectedIndex == old(selectedIndex)
      ensures old(selectedIndex) < 0 && value != "" && (exists k :: 0 <= k < |options| && options[k].value == value) ==>
                0 <= selectedIndex < |options| && options[selectedIndex].value == value
                && forall k :: 0 <= k < selectedIndex ==> options[k].value != value
      ensures (forall k :: 0 <= k < |options| ==> options[k].value != value) ==> selectedIndex == old(selectedIndex)
    {
      if selectedIndex >= 0 || value == "" {
        return;
      }
      var j := 0;
      while j < |options|
        invariant 0 <= j <= |options|
        invariant selectedIndex == old(selectedIndex)
        invariant forall k :: 0 <= k < j ==> options[k].value != value
      {
        if options[j].value == value {
          selectedIndex := j;
          return;
        }
        j := j + 1;
      }
    }
  }

  /** The selector and the value handed to the callback once `updateModelSelectElement`
      has shown `data` with `current` as the current model: a `none` option for an error
      or an empty list, and otherwise one option per model with the browser's selection. */
  predicate Shown(select: ModelSelect, data: Listing, delivered: Listing, current: string)
    reads select
  {
    && !select.disabled
    && (data.error != "" ==>
          delivered == Listing(data.error, Some([]), "")
          && select.options == [Choice("none", ErrorLabel(data.error), false)])
    && (data.error == "" && !HasModels(data) ==>
          delivered == Listing("", Some([]), "")
          && select.options == [Choice("none", "Aucun modèle disponible", false)])
    && (HasModels(data) ==>
          delivered == data
          && select.options == ModelOptions(data.models.value, data.defaultName)
          && select.selectedIndex == DomSelected(data.models.value, current))
  }

  /** The shared page state of the `AssistantIA` namespace. */
  class Assistant {
    var currentModelName: string
    var cachedModels: Option<Listing>
    var lastModelsFetch: int
    var isOllamaRunning: Option<bool>
    var isDarkTheme: bool
    /** The body's `data-theme` attribute. */
    var theme: string
    /** The theme saved in the browser's storage. */
    var storedTheme: string

    /** The namespace after `initTheme`, with the saved theme or `dark`. */
    constructor(savedTheme: string)
      ensures theme == (if savedTheme == "" then "dark" else savedTheme)
      ensures isDarkTheme <==> theme == "dark"
      ensures storedTheme == savedTheme
      ensures currentModelName == "" && cachedModels == None && lastModelsFetch == 0
      ensures isOllamaRunning == None
    {
      currentModelName := "";
      cachedModels := None;
      lastModelsFetch := 0;
      isOllamaRunning := None;
      storedTheme := savedTheme;
      theme := if savedTheme == "" then "dark" else savedTheme;
      isDarkTheme := savedTheme == "" || savedTheme == "dark";
    }

    method ToggleTheme()
      modifies this
      ensures theme == Toggled(old(theme)) && storedTheme == theme
      ensures isDarkTheme <==> theme == "dark"
      ensures currentModelName == old(currentModelName) && cachedModels == old(cachedModels)
      ensures lastModelsFetch == old(lastModelsFetch) && isOllamaRunning == old(isOllamaRunning)
    {
      var newTheme := Toggled(theme);
      isDarkTheme := newTheme == "dark";
      theme := newTheme;
      storedTheme := newTheme;
    }

    /** The cached list is served: not forced, present, and younger than a minute. */
    predicate CacheFresh(now: int, force: bool)
      reads this
    {
      !force && cachedModels.Some? && now - lastModelsFetch < CacheDuration
    }

    /** Fills `select` from a model list and returns what the callback receives. */
    method UpdateModelSelectElement(select: ModelSelect, data: Listing) returns (delivered: Listing)
      modifies this`isOllamaRunning, select
      ensures Shown(select, data, delivered, currentModelName)
      ensures data.error != "" ==>
                isOllamaRunning == (if IsOllamaConnectionError(data.error) then Some(false)
                                    else old(isOllamaRunning))
      ensures data.error == "" ==> isOllamaRunning == Some(true)
    {
      select.options := [];
      select.selectedIndex := -1;
      select.disabled := false;
      if data.error != "" {
        if IsOllamaConnectionError(data.error) {
          isOllamaRunning := Some(false);
        }
        select.ShowNone(ErrorLabel(data.error));
        return Listing(data.error, Some([]), "");
      }
      if data.models.None? || |data.models.value| == 0 {
        select.ShowNone("Aucun modèle disponible");
        isOllamaRunning := Some(true);
        return Listing("", Some([]), "");
      }
      isOllamaRunning := Some(true);
      var models := data.models.value;
      var _ := select.Fill(models, data.defaultName, currentModelName);
      select.SelectDefaultIfNone(data.defaultName);
      return data;
    }

    /** `loadModelsList`: serves the cached list when fresh, otherwise asks the server
        (`fetched` is its answer, or the failure message) and caches a received list. */
    method LoadModelsList(select: ModelSelect, now: int, force: bool, fetched: Result<Listing, string>)
      returns (delivered: Listing, requested: bool)
      modifies this, select
      ensures requested <==> !old(CacheFresh(now, force))
      ensures !requested ==> cachedModels == old(cachedModels) && lastModelsFetch == old(lastModelsFetch)
                             && Shown(select, old(cachedModels).value, delivered, currentModelName)
      ensures requested && fetched.Ok? ==> cachedModels == Some(fetched.value) && lastModelsFetch == now
                                           && Shown(select, fetched.value, delivered, currentModelName)
      ensures requested && fetched.Err? ==>
                cachedModels == old(cachedModels) && lastModelsFetch == old(lastModelsFetch)
                && delivered == Listing(fetched.error, Some([]), "")
                && select.options == [Choice("none", "Erreur de connexion", false)]
                && !select.disabled && isOllamaRunning == old(isOllamaRunning)
      ensures currentModelName == old(currentModelName) && theme == old(theme)
    {
      if CacheFresh(now, force) {
        delivered := UpdateModelSelectElement(select, cachedModels.value);
        return delivered, false;
      }
      select.options := [Choice("loading", "Chargement des modèles...", false)];
      select.selectedIndex := 0;
      select.disabled := true;
      match fetched {
        case Ok(data) =>
          cachedModels := Some(data);
          lastModelsFetch := now;
          delivered := UpdateModelSelectElement(select, data);
        case Err(message) =>
          select.ShowNone("Erreur de connexion");
          delivered := Listing(message, Some([]), "");
      }
      requested := true;
    }

    /** `updateCurrentModel`: an unusable name is refused before any request; a
        successful answer makes `name` the current model. */
    method UpdateCurrentModel(name: string, reply: SetReply) returns (r: Result<bool, string>, requested: bool)
      modifies this`currentModelName
      ensures requested <==> UsableModelName(name)
      ensures !requested ==> r == Err("Nom de modèle invalide")
      ensures r.Ok? <==> requested && reply.Answer? && reply.success
      ensures currentModelName == (if r.Ok? then name else old(currentModelName))
    {
      if !UsableModelName(name) {
        return Err("Nom de modèle invalide"), false;
      }
      requested := true;
      match reply {
        case HttpFailure(status) =>
          r := Err("Erreur HTTP: " + IntToString(status));
        case NetworkFailure(message) =>
          r := Err(message);
        case Answer(success, error) =>
          if success {
            currentModelName := name;
            r := Ok(true);
          } else {
            r := Err(if error != "" then error else "Erreur inconnue");
          }
      }
    }

    /** `isOllamaRunning`: the remembered answer when there is one, otherwise the
        answer a model listing gives, remembered for later calls. */
    method IsOllamaRunning(fetched: Result<Listing, string>) returns (running: bool, requested: bool)
      modifies this`isOllamaRunning
      ensures requested <==> old(isOllamaRunning).None?
      ensures !requested ==> running == old(isOllamaRunning).value && isOllamaRunning == old(isOllamaRunning)
      ensures requested ==> running == RunningFrom(fetched) && isOllamaRunning == Some(running)
    {
      if isOllamaRunning.Some? {
        return isOllamaRunning.value, false;
      }
      running := RunningFrom(fetched);
      isOllamaRunning := Some(running);
      requested := true;
    }
  }

  /** The label of the single option shown for an error answer. */
  function ErrorLabel(error: string): (text: string)
    ensures IsOllamaConnectionError(error) ==> text == "Ollama non disponible"
    ensures !IsOllamaConnectionError(error) ==> text == "Erreur de chargement"
  {
    if IsOllamaConnectionError(error) then "Ollama non disponible" else "Erreur de chargement"
  }
}
