/** The model manager `manage-models.py`: the probe and launch loops around the Ollama
    daemon, the resolution of the current default model, and the `pull`, `delete`,
    `set-default` and `ping` commands with their bookkeeping of `default_model`.

    The daemon is an `OllamaService` object: the answers to successive `GET /api/tags`
    requests are a fixed oracle indexed by a request counter, whether `ollama serve` can
    be spawned is a constant, and the names of the local models are a field that pulls
    and deletions change. The configuration file is a `ModelConfig` object. */
module ManageModels {
  import opened Wrappers
  import opened OllamaConfig
  import App

  /** What a `GET /api/tags` request yields: an HTTP status, a refused connection, or
      another exception (a timeout, say). All exceptions are caught by the callers. */
  datatype Reply = Answered(status: int) | Refused | Raised(detail: string)

  predicate Up(r: Reply) { r == Answered(200) }

  /** The value `get_current_model` returns when no model can be used. */
  const NoModel := "aucun_modele_disponible"

  /** Number of probes after launching `ollama serve`, one second apart. */
  const StartProbes: nat := 5

  // ---------------------------------------------------------------- probing

  /** The offset, among the `n` replies from request `from` on, of the first healthy one. */
  function FirstUp(replies: nat -> Reply, from: nat, n: nat): (k: Option<nat>)
    ensures k.Some? ==> k.value < n && Up(replies(from + k.value))
    ensures k.Some? ==> forall j :: from <= j < from + k.value ==> !Up(replies(j))
    ensures k.None? ==> forall j :: from <= j < from + n ==> !Up(replies(j))
    decreases n
  {
    if n == 0 then None
    else if Up(replies(from)) then Some(0)
    else
      match FirstUp(replies, from + 1, n - 1)
      case None => None
      case Some(i) => Some(i + 1)
  }

  /** Requests made by a probe loop of `n` probes that stops at offset `k`. */
  function Probed(k: Option<nat>): nat {
    match k
    case Some(i) => i + 1
    case None => StartProbes
  }

  /** The course of `ensure_ollama_running` from request `from` on: whether the daemon
      ends up answering, how many requests were made, and whether it was launched. */
  datatype Probing = Probing(running: bool, used: nat, launched: bool)

  function Ensure(replies: nat -> Reply, from: nat, launchable: bool): (p: Probing)
    ensures 1 <= p.used <= 1 + StartProbes
    ensures p.launched <==> !Up(replies(from)) && launchable
    ensures p.running ==> Up(replies(from + p.used - 1))
    ensures !p.running && p.launched ==> p.used == 1 + StartProbes
  {
    if Up(replies(from)) then Probing(true, 1, false)
    else if !launchable then Probing(false, 1, false)
    else
      match FirstUp(replies, from + 1, StartProbes)
      case Some(k) => Probing(true, k + 2, true)
      case None => Probing(false, 1 + StartProbes, true)
  }

  /** Every probe `ensure_ollama_running` makes before the one that finds the daemon up
      finds it down, and when it gives up every probe it made found it down. */
  lemma EnsureProbes(replies: nat -> Reply, from: nat, launchable: bool)
    ensures var p := Ensure(replies, from, launchable);
            && (p.running ==> forall j :: from <= j < from + p.used - 1 ==> !Up(replies(j)))
            && (!p.running ==> forall j :: from <= j < from + p.used ==> !Up(replies(j)))
  {
    if !Up(replies(from)) && launchable {
      var k := FirstUp(replies, from + 1, StartProbes);
    }
  }

  /** The names `get_models` returns when its first request is request `from`: the
      local models when the daemon is (made) available and the `/api/tags` request after
      the probing answers 200, and nothing otherwise. */
  function Listing(replies: nat -> Reply, launchable: bool, from: nat, local: seq<string>): (names: seq<string>)
    ensures names == [] || names == local
    ensures names != [] ==> Ensure(replies, from, launchable).running
    ensures (Ensure(replies, from, launchable).running
             && Up(replies(from + Ensure(replies, from, launchable).used))) ==> names == local
  {
    var p := Ensure(replies, from, launchable);
    if p.running && Up(replies(from + p.used)) then local else []
  }

  /** The number of requests `get_models` makes from request `from` on. */
  function ListingUsed(replies: nat -> Reply, launchable: bool, from: nat): (n: nat)
    ensures 1 <= n <= 2 + StartProbes
    ensures n == Ensure(replies, from, launchable).used + 1 <==> Ensure(replies, from, launchable).running
  {
    var p := Ensure(replies, from, launchable);
    p.used + (if p.running then 1 else 0)
  }

  /** A daemon that answers every request lists the local models, in two requests. */
  lemma SteadyListing(replies: nat -> Reply, launchable: bool, from: nat, local: seq<string>)
    requires forall j :: Up(replies(j))
    ensures Listing(replies, launchable, from, local) == local
    ensures ListingUsed(replies, launchable, from) == 2
  {
    assert Up(replies(from)) && Up(replies(from + 1));
  }

  /** The local model names as the daemon reports them. */
  class OllamaService {
    /** The answer to the `n`-th request to `/api/tags`. */
    const replies: nat -> Reply
    /** Whether `ollama serve` can be spawned (`Popen` does not raise). */
    const launchable: bool
    /** Requests made to `/api/tags` so far. */
    var requests: nat
    /** Number of times `ollama serve` was spawned. */
    var launches: nat
    /** Names of the local models, in the order `/api/tags` lists them. */
    var local: seq<string>

    constructor(replies: nat -> Reply, launchable: bool, local: seq<string>)
      ensures this.replies == replies && this.launchable == launchable && this.local == local
      ensures requests == 0 && launches == 0
    {
      this.replies := replies;
      this.launchable := launchable;
      this.local := local;
      requests := 0;
      launches := 0;
    }

    /** `check_ollama_running`: one request, true iff it answers with status 200. */
    method CheckRunning() returns (running: bool)
      modifies this
      ensures running <==> Up(replies(old(requests)))
      ensures requests == old(requests) + 1
      ensures launches == old(launches) && local == old(local)
    {
      running := Up(replies(requests));
      requests := requests + 1;
    }

    /** `start_ollama_service`: one launch, then at most five probes, stopping at the
        first healthy one. A launch that raises makes no probe. */
    method StartService() returns (running: bool)
      modifies this
      ensures !launchable ==> !running && requests == old(requests) && launches == old(launches)
      ensures launchable ==> launches == old(launches) + 1
      ensures launchable ==> (running <==> FirstUp(replies, old(requests), StartProbes).Some?)
      ensures launchable ==> requests == old(requests) + Probed(FirstUp(replies, old(requests), StartProbes))
      ensures local == old(local)
    {
      if !launchable {
        return false;
      }
      launches := launches + 1;
      var attempt := 0;
      while attempt < StartProbes
        invariant 0 <= attempt <= StartProbes
        invariant requests == old(requests) + attempt
        invariant forall j :: old(requests) <= j < old(requests) + attempt ==> !Up(replies(j))
        invariant launches == old(launches) + 1 && local == old(local)
      {
        running := CheckRunning();
        if running {
          return true;
        }
        attempt := attempt + 1;
      }
      return false;
    }

    /** `ensure_ollama_running`: a launch only when the first probe fails. */
    method EnsureRunning() returns (running: bool)
      modifies this
      ensures var p := Ensure(replies, old(requests), launchable);
              && running == p.running
              && requests == old(requests) + p.used
              && launches == old(launches) + (if p.launched then 1 else 0)
      ensures local == old(local)
    {
      running := CheckRunning();
      if running {
        return;
      }
      running := StartService();
    }

    /** `get_models`: the local models when the daemon is (made) available and the
        listing answers 200, and the empty list otherwise. */
    method GetModels() returns (names: seq<string>)
      modifies this
      ensures names == Listing(replies, launchable, old(requests), local)
      ensures requests == old(requests) + ListingUsed(replies, launchable, old(requests))
      ensures local == old(local) && launches <= old(launches) + 1
    {
      var running := EnsureRunning();
      if !running {
        return [];
      }
      var reply := replies(requests);
      requests := requests + 1;
      names := if Up(reply) then local else [];
    }

    /** `check_if_model_exists`: whether the listing just made contains `name`. */
    method CheckIfModelExists(name: string) returns (exists_: bool)
      modifies this
      ensures exists_ <==> name in Listing(replies, launchable, old(requests), local)
      ensures exists_ ==> name in local
      ensures requests == old(requests) + ListingUsed(replies, launchable, old(requests))
      ensures local == old(local)
    {
      var names := GetModels();
      exists_ := name in names;
    }

    /** The daemon's part of `get_current_model`: `"none"` contacts nothing, a listed
        configured model is kept, and otherwise the first model of a second listing is
        chosen as the fallback, if there is one. */
    method ResolveCurrent(configured: string) returns (r: Resolution)
      modifies this
      ensures local == old(local)
      ensures var l := LookUp(replies, launchable, old(requests), local, configured);
              r == Resolve(configured, l.first, l.second) && requests == l.end
    {
      if configured == "none" {
        return Resolution(NoModel, None);
      }
      LookUpSteps(replies, launchable, requests, local, configured);
      var present := CheckIfModelExists(configured);
      if present {
        return Resolution(configured, None);
      }
      var models := GetModels();
      if models != [] {
        return Resolution(models[0], Some(models[0]));
      }
      return Resolution(NoModel, None);
    }

    /** `OllamaService.pull_model`. `accepted` is whether `POST /api/pull` answers 200
        and its progress stream completes; the new model is then listed last, under
        exactly the name given (a daemon that lists `llama3` as `llama3:latest` is not
        modelled). */
    method Pull(name: string, accepted: bool) returns (success: bool)
      modifies this
      ensures success <==> Ensure(replies, old(requests), launchable).running && accepted
      ensures local == (if success then Pulled(old(local), name) else old(local))
      ensures requests == old(requests) + Ensure(replies, old(requests), launchable).used
    {
      var running := EnsureRunning();
      if !running || !accepted {
        return false;
      }
      local := Pulled(local, name);
      return true;
    }

    /** `OllamaService.delete_model`. `accepted` is whether `DELETE /api/delete`
        answers 200. */
    method Delete(name: string, accepted: bool) returns (success: bool)
      modifies this
      ensures success <==> Ensure(replies, old(requests), launchable).running && accepted
      ensures local == (if success then Without(old(local), name) else old(local))
      ensures requests == old(requests) + Ensure(replies, old(requests), launchable).used
    {
      var running := EnsureRunning();
      if !running || !accepted {
        return false;
      }
      local := Without(local, name);
      return true;
    }
  }

  /** The local list after pulling `name`: unchanged if already present. */
  function Pulled(local: seq<string>, name: string): (r: seq<string>)
    ensures name in r
    ensures forall m :: m in local ==> m in r
    ensures forall m :: m in r ==> m in local || m == name
  {
    if name in local then local else local + [name]
  }

  /** The local list after deleting `name`: every other model, in order. */
  function Without(local: seq<string>, name: string): (r: seq<string>)
    ensures name !in r
    ensures forall m :: m in r <==> m in local && m != name
    ensures |r| <= |local|
  {
    if local == [] then []
    else if local[0] == name then Without(local[1..], name)
    else [local[0]] + Without(local[1..], name)
  }

  // ---------------------------------------------------------------- the default model

  /** `get_config().get("default_model", "llama3")`: a missing or unreadable file and a
      missing key all read as `llama3`. */
  function ConfiguredModel(f: ConfigFile): (m: string)
    ensures f.Config? && f.defaultModel.Some? ==> m == f.defaultModel.value
    ensures !(f.Config? && f.defaultModel.Some?) ==> m == "llama3"
  {
    match f
    case Config(Some(m)) => m
    case _ => "llama3"
  }

  /** What `get_current_model` decides, given the configured name and the two listings
      it may make (`first` for the existence check, `second` for the fallback). */
  datatype Resolution = Resolution(current: string, newDefault: Option<string>)

  function Resolve(configured: string, first: seq<string>, second: seq<string>): (r: Resolution)
    ensures configured == "none" ==> r == Resolution(NoModel, None)
    ensures configured != "none" && configured in first ==> r == Resolution(configured, None)
    ensures r.newDefault.Some? <==> configured != "none" && configured !in first && second != []
    ensures r.newDefault.Some? ==> r.current == r.newDefault.value == second[0]
    ensures r.newDefault.None? && r.current != configured ==> r.current == NoModel
  {
    if configured == "none" then Resolution(NoModel, None)
    else if configured in first then Resolution(configured, None)
    else if second != [] then Resolution(second[0], Some(second[0]))
    else Resolution(NoModel, None)
  }

  /** Against a daemon that lists the same models both times: with local models, the
      current model is one of them unless the configuration says `"none"`; without any,
      the answer is `aucun_modele_disponible`. */
  lemma ResolveStable(configured: string, local: seq<string>)
    ensures var r := Resolve(configured, local, local);
            && (local != [] && configured != "none" ==> r.current in local)
            && (local == [] ==> r.current == NoModel)
  {
    if local != [] {
      assert local[0] in local;
    }
  }

  /** A saved fallback is final: resolving again against the same daemon keeps it and
      saves nothing, except for a model literally named `none`, which the next
      resolution reads as "no model". */
  lemma ResolveSettles(configured: string, local: seq<string>)
    requires Resolve(configured, local, local).newDefault.Some?
    ensures var m := Resolve(configured, local, local).newDefault.value;
            && (m != "none" ==> Resolve(m, local, local) == Resolution(m, None))
            && (m == "none" ==> Resolve(m, local, local).current == NoModel)
  {
    var m := Resolve(configured, local, local).newDefault.value;
    assert m == local[0] && m in local;
  }

  /** The file once `get_current_model` has saved its fallback, if it chose one. */
  function AfterResolve(f: ConfigFile, r: Resolution): (g: ConfigFile)
    ensures r.newDefault.None? ==> g == f
    ensures r.newDefault.Some? ==> g.Config? && ConfiguredModel(g) == r.newDefault.value
  {
    if r.newDefault.Some? then Config(r.newDefault) else f
  }

  /** The listings `get_current_model` makes when its first request is request `from`,
      and the request count after them: none for `"none"`, the existence check, and the
      fallback listing only when the check fails. */
  datatype Lookup = Lookup(first: seq<string>, second: seq<string>, end: nat)

  function LookUp(replies: nat -> Reply, launchable: bool, from: nat, local: seq<string>,
                  configured: string): (l: Lookup)
    ensures from <= l.end
    ensures l.first == [] || l.first == local
    ensures l.second == [] || l.second == local
    ensures configured == "none" ==> l == Lookup([], [], from)
    ensures configured != "none" ==> l.first == Listing(replies, launchable, from, local)
    ensures configured in l.first ==> l.second == []
  {
    if configured == "none" then Lookup([], [], from)
    else
      var first := Listing(replies, launchable, from, local);
      var mid := from + ListingUsed(replies, launchable, from);
      if configured in first then Lookup(first, [], mid)
      else Lookup(first, Listing(replies, launchable, mid, local), mid + ListingUsed(replies, launchable, mid))
  }

  /** The two courses `get_current_model` can take from request `from` on: the
      existence check finds the configured model, or a second listing follows it. */
  lemma LookUpSteps(replies: nat -> Reply, launchable: bool, from: nat, local: seq<string>, configured: string)
    requires configured != "none"
    ensures var first := Listing(replies, launchable, from, local);
            var mid := from + ListingUsed(replies, launchable, from);
            && (configured in first ==> LookUp(replies, launchable, from, local, configured) == Lookup(first, [], mid))
            && (configured !in first ==>
                  LookUp(replies, launchable, from, local, configured)
                  == Lookup(first, Listing(replies, launchable, mid, local), mid + ListingUsed(replies, launchable, mid)))
  {
  }

  /** Against a daemon that answers every request, `get_current_model` resolves as if
      both listings were the local models. */
  lemma LookUpSteady(replies: nat -> Reply, launchable: bool, from: nat, local: seq<string>, configured: string)
    requires forall j :: Up(replies(j))
    ensures var l := LookUp(replies, launchable, from, local, configured);
            Resolve(configured, l.first, l.second) == Resolve(configured, local, local)
  {
    if configured != "none" {
      SteadyListing(replies, launchable, from, local);
      SteadyListing(replies, launchable, from + 2, local);
    }
  }

  /** The file after a successful pull of `name`: the resolution of the current model
      (from listings `first` and `second`) may save a fallback, and when it finds no model
      at all the pulled model is saved as the default, if `confirmed` lists it. */
  function DefaultAfterPull(name: string, f: ConfigFile, first: seq<string>, second: seq<string>,
                            confirmed: seq<string>): (g: ConfigFile)
    ensures var r := Resolve(ConfiguredModel(f), first, second);
            && (r.current != NoModel ==> g == AfterResolve(f, r))
            && (r.current == NoModel && name in confirmed ==> g == Config(Some(name)))
            && (r.current == NoModel && name !in confirmed ==> g == AfterResolve(f, r))
  {
    var r := Resolve(ConfiguredModel(f), first, second);
    if r.current == NoModel && name in confirmed then Config(Some(name)) else AfterResolve(f, r)
  }

  /** Against a daemon that lists the same models throughout, which include the pulled
      one: the pulled model becomes the default exactly when the configuration said
      `"none"`, and otherwise the default is one of the local models or unchanged. */
  lemma PullSetsDefaultOnlyFromNone(name: string, f: ConfigFile, local: seq<string>)
    requires name in local
    ensures var g := DefaultAfterPull(name, f, local, local, local);
            && (ConfiguredModel(f) == "none" ==> g == Config(Some(name)))
            && (ConfiguredModel(f) != "none" ==> g == f || ConfiguredModel(g) in local)
  {
    var r := Resolve(ConfiguredModel(f), local, local);
    assert local != [] && local[0] in local;
  }

  /** Against a daemon that answers every request, the default after a pull is the one
      `PullSetsDefaultOnlyFromNone` describes: every listing the command makes shows the
      local models. */
  lemma PullDefaultSteady(replies: nat -> Reply, launchable: bool, from: nat, local: seq<string>,
                          name: string, f: ConfigFile)
    requires forall j :: Up(replies(j))
    ensures var l := LookUp(replies, launchable, from, local, ConfiguredModel(f));
            DefaultAfterPull(name, f, l.first, l.second, Listing(replies, launchable, l.end, local))
            == DefaultAfterPull(name, f, local, local, local)
  {
    var l := LookUp(replies, launchable, from, local, ConfiguredModel(f));
    LookUpSteady(replies, launchable, from, local, ConfiguredModel(f));
    SteadyListing(replies, launchable, l.end, local);
  }

  /** The new default `delete_model` chooses after deleting the current default:
      `remaining` is the listing made after the deletion and `confirmed` the listing
      `set_default_model` makes to check the first remaining model. */
  function DefaultAfterDelete(deleted: string, current: string, remaining: seq<string>,
                              confirmed: seq<string>, f: ConfigFile): (r: ConfigFile)
    ensures deleted != current ==> r == f
    ensures deleted == current && remaining == [] ==> r == Config(Some("none"))
    ensures r != f ==> deleted == current
    ensures r != f && remaining != [] ==> r == Config(Some(remaining[0])) && remaining[0] in confirmed
  {
    if deleted != current then f
    else if remaining == [] then Config(Some("none"))
    else if remaining[0] in confirmed then Config(Some(remaining[0]))
    else f
  }

  /** With a daemon that no longer lists the deleted model, the deleted default is
      replaced: by the first remaining model, which differs from it, or by `"none"`. */
  lemma DeleteMovesDefault(deleted: string, f: ConfigFile, local: seq<string>)
    requires deleted !in local
    ensures var r := DefaultAfterDelete(deleted, deleted, local, local, f);
            && r.Config? && r.defaultModel.Some?
            && (local == [] ==> r.defaultModel.value == "none")
            && (local != [] ==> r.defaultModel.value == local[0] && r.defaultModel.value != deleted)
  {
    if local != [] {
      assert local[0] in local;
    }
  }

  /** The configuration file `ollama_config.json` as the model manager reads and
      writes it. Writes are taken to succeed. */
  class ModelConfig {
    var file: ConfigFile

    constructor(initial: ConfigFile)
      ensures file == initial
    {
      file := initial;
    }

    /** `ConfigManager.get_current_model`: the resolution of the configured model
        against the listings it makes, saving the fallback it chooses. */
    method GetCurrentModel(svc: OllamaService) returns (current: string)
      modifies this, svc
      ensures svc.local == old(svc.local)
      ensures var l := LookUp(svc.replies, svc.launchable, old(svc.requests), svc.local, ConfiguredModel(old(file)));
              var r := Resolve(ConfiguredModel(old(file)), l.first, l.second);
              current == r.current && file == AfterResolve(old(file), r) && svc.requests == l.end
    {
      var r := svc.ResolveCurrent(ConfiguredModel(file));
      if r.newDefault.Some? {
        file := Config(r.newDefault);
      }
      current := r.current;
    }

    /** `ConfigManager.set_default_model`: saves the model iff the listing it makes
        shows it, and otherwise leaves the file as it was. */
    method SetDefault(svc: OllamaService, name: string) returns (ok: bool)
      modifies this, svc
      ensures svc.local == old(svc.local)
      ensures svc.requests == old(svc.requests) + ListingUsed(svc.replies, svc.launchable, old(svc.requests))
      ensures ok <==> name in Listing(svc.replies, svc.launchable, old(svc.requests), svc.local)
      ensures ok ==> name in svc.local && file == Config(Some(name))
      ensures !ok ==> file == old(file)
    {
      ok := svc.CheckIfModelExists(name);
      if ok {
        file := Config(Some(name));
      }
    }
  }

  // ---------------------------------------------------------------- commands

  /** The guard the three commands share: a name that is empty or fails the allow-list
      of the web server. */
  predicate Refused(name: string) {
    name == "" || !App.ValidModelName(name)
  }

  /** `pull_model` (the command): exit status 0 iff the daemon accepted the pull. The
      current model is then resolved, and when that finds no model the pulled one is
      made the default, provided the listing `set_default_model` makes shows it. */
  method PullCommand(name: string, accepted: bool, config: ModelConfig, svc: OllamaService) returns (status: int)
    modifies config, svc
    ensures Refused(name) ==> status == 1 && svc.requests == old(svc.requests)
                                && config.file == old(config.file) && svc.local == old(svc.local)
    ensures status == 0 || status == 1
    ensures status == 0 <==>
              !Refused(name) && Ensure(svc.replies, old(svc.requests), svc.launchable).running && accepted
    ensures svc.local == (if status == 0 then Pulled(old(svc.local), name) else old(svc.local))
    ensures status == 1 ==> config.file == old(config.file)
    ensures status == 0 ==>
              var l := LookUp(svc.replies, svc.launchable,
                              old(svc.requests) + Ensure(svc.replies, old(svc.requests), svc.launchable).used,
                              svc.local, ConfiguredModel(old(config.file)));
              config.file == DefaultAfterPull(name, old(config.file), l.first, l.second,
                                              Listing(svc.replies, svc.launchable, l.end, svc.local))
  {
    if Refused(name) {
      return 1;
    }
    var success := svc.Pull(name, accepted);
    if !success {
      return 1;
    }
    var current := config.GetCurrentModel(svc);
    if current == NoModel {
      var _ := config.SetDefault(svc, name);
    }
    return 0;
  }

  /** `delete_model` (the command): the current model is resolved first; when the
      deletion succeeds and removed that model, the default moves to the first model
      the next listing shows, or to `"none"` when it shows none. */
  method DeleteCommand(name: string, accepted: bool, config: ModelConfig, svc: OllamaService) returns (status: int)
    modifies config, svc
    ensures Refused(name) ==> status == 1 && svc.requests == old(svc.requests)
                                && config.file == old(config.file) && svc.local == old(svc.local)
    ensures status == 0 || status == 1
    ensures var l := LookUp(svc.replies, svc.launchable, old(svc.requests), old(svc.local),
                            ConfiguredModel(old(config.file)));
            status == 0 <==> !Refused(name) && Ensure(svc.replies, l.end, svc.launchable).running && accepted
    ensures svc.local == (if status == 0 then Without(old(svc.local), name) else old(svc.local))
    ensures var l := LookUp(svc.replies, svc.launchable, old(svc.requests), old(svc.local),
                            ConfiguredModel(old(config.file)));
            var r := Resolve(ConfiguredModel(old(config.file)), l.first, l.second);
            !Refused(name) && status == 1 ==> config.file == AfterResolve(old(config.file), r)
    ensures var l := LookUp(svc.replies, svc.launchable, old(svc.requests), old(svc.local),
                            ConfiguredModel(old(config.file)));
            var r := Resolve(ConfiguredModel(old(config.file)), l.first, l.second);
            var d := l.end + Ensure(svc.replies, l.end, svc.launchable).used;
            var e := d + ListingUsed(svc.replies, svc.launchable, d);
            status == 0 ==>
              config.file == DefaultAfterDelete(name, r.current, Listing(svc.replies, svc.launchable, d, svc.local),
                                                Listing(svc.replies, svc.launchable, e, svc.local),
                                                AfterResolve(old(config.file), r))
  {
    if Refused(name) {
      return 1;
    }
    status := DeleteValid(name, accepted, config, svc);
  }

  /** `delete_model` once the name has passed validation: the current model is resolved,
      the model deleted, and the default moved when it was the deleted model. */
  method DeleteValid(name: string, accepted: bool, config: ModelConfig, svc: OllamaService) returns (status: int)
    modifies config, svc
    ensures status == 0 || status == 1
    ensures var l := LookUp(svc.replies, svc.launchable, old(svc.requests), old(svc.local),
                            ConfiguredModel(old(config.file)));
            status == 0 <==> Ensure(svc.replies, l.end, svc.launchable).running && accepted
    ensures svc.local == (if status == 0 then Without(old(svc.local), name) else old(svc.local))
    ensures var l := LookUp(svc.replies, svc.launchable, old(svc.requests), old(svc.local),
                            ConfiguredModel(old(config.file)));
            var r := Resolve(ConfiguredModel(old(config.file)), l.first, l.second);
            status == 1 ==> config.file == AfterResolve(old(config.file), r)
    ensures var l := LookUp(svc.replies, svc.launchable, old(svc.requests), old(svc.local),
                            ConfiguredModel(old(config.file)));
            var r := Resolve(ConfiguredModel(old(config.file)), l.first, l.second);
            var d := l.end + Ensure(svc.replies, l.end, svc.launchable).used;
            var e := d + ListingUsed(svc.replies, svc.launchable, d);
            status == 0 ==>
              config.file == DefaultAfterDelete(name, r.current, Listing(svc.replies, svc.launchable, d, svc.local),
                                                Listing(svc.replies, svc.launchable, e, svc.local),
                                                AfterResolve(old(config.file), r))
  {
    ghost var f := config.file;
    ghost var l := LookUp(svc.replies, svc.launchable, svc.requests, svc.local, ConfiguredModel(f));
    ghost var r := Resolve(ConfiguredModel(f), l.first, l.second);
    var current := config.GetCurrentModel(svc);
    assert current == r.current && config.file == AfterResolve(f, r) && svc.requests == l.end;
    status := DeleteAndReassign(name, accepted, current, config, svc);
  }

  /** The deletion step of `delete_model`, once the current model is known. */
  method DeleteAndReassign(name: string, accepted: bool, current: string, config: ModelConfig, svc: OllamaService)
    returns (status: int)
    modifies config, svc
    ensures status == 0 || status == 1
    ensures status == 0 <==> Ensure(svc.replies, old(svc.requests), svc.launchable).running && accepted
    ensures svc.local == (if status == 0 then Without(old(svc.local), name) else old(svc.local))
    ensures status == 1 ==> config.file == old(config.file)
    ensures var d := old(svc.requests) + Ensure(svc.replies, old(svc.requests), svc.launchable).used;
            var e := d + ListingUsed(svc.replies, svc.launchable, d);
            status == 0 ==>
              config.file == DefaultAfterDelete(name, current, Listing(svc.replies, svc.launchable, d, svc.local),
                                                Listing(svc.replies, svc.launchable, e, svc.local), old(config.file))
  {
    ghost var from := svc.requests;
    var success := svc.Delete(name, accepted);
    if !success {
      return 1;
    }
    ghost var d := svc.requests;
    assert d == from + Ensure(svc.replies, from, svc.launchable).used;
    ReassignDefault(name, current, config, svc);
    return 0;
  }

  /** The end of `delete_model` after a successful deletion: when the deleted model was
      the current one, the default moves to the first model the next listing shows (if
      `set_default_model` confirms it), or to `"none"` when the listing is empty. */
  method ReassignDefault(deleted: string, current: string, config: ModelConfig, svc: OllamaService)
    modifies config, svc
    ensures svc.local == old(svc.local)
    ensures var d := old(svc.requests);
            var e := d + ListingUsed(svc.replies, svc.launchable, d);
            config.file == DefaultAfterDelete(deleted, current, Listing(svc.replies, svc.launchable, d, svc.local),
                                              Listing(svc.replies, svc.launchable, e, svc.local), old(config.file))
  {
    if deleted == current {
      var models := svc.GetModels();
      if models != [] {
        var _ := config.SetDefault(svc, models[0]);
      } else {
        config.file := Config(Some("none"));
      }
    }
  }

  /** `set_default_model` (the command): status 0 iff the name passes the guard and the
      listing made shows it, in which case it is the saved default. */
  method SetDefaultCommand(name: string, config: ModelConfig, svc: OllamaService) returns (status: int)
    modifies config, svc
    ensures Refused(name) ==> status == 1 && svc.requests == old(svc.requests) && config.file == old(config.file)
    ensures status == 0 || status == 1
    ensures status == 0 <==> !Refused(name) && name in Listing(svc.replies, svc.launchable, old(svc.requests), svc.local)
    ensures status == 0 ==> name in svc.local && config.file == Config(Some(name))
    ensures status == 1 ==> config.file == old(config.file)
    ensures svc.local == old(svc.local)
  {
    if Refused(name) {
      return 1;
    }
    var ok := config.SetDefault(svc, name);
    status := if ok then 0 else 1;
  }

  /** `check_ollama_ping`: one probe; status 0 and `"ok"` iff it answered 200. */
  method Ping(svc: OllamaService) returns (status: int, state: string)
    modifies svc
    ensures status == 0 <==> Up(svc.replies(old(svc.requests)))
    ensures status == 0 || status == 1
    ensures state == (if status == 0 then "ok" else "error")
    ensures svc.requests == old(svc.requests) + 1 && svc.launches == old(svc.launches)
  {
    var running := svc.CheckRunning();
    status, state := if running then 0 else 1, if running then "ok" else "error";
  }
}
