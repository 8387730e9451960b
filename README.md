# Shell inference console over Ollama — a Dafny model

The system is a web console for local language models served by Ollama. It has five parts:

- `run-inference.py` is a command-line client. It makes sure the Ollama daemon answers, sends one generation request (blocking or streamed) and logs statistics about it.
- `manage-models.py` manages models. It pulls and deletes models, sets the default, and keeps `default_model` in `ollama_config.json` consistent with the models the daemon lists.
- `app.py` is a Flask server. It validates requests, runs the two scripts as subprocesses and serves the inference history, per-model usage and GPU information.
- `project_manager.py` keeps project folders with their `metadata.json`. It sanitises names and paths and classifies files.
- `static/js/console.js`, `common.js` and `ollama.js` are the browser side: the terminal with its command history and interactive (ssh) mode, the model selectors and caches, and the model management page.

The model keeps the deterministic rules under the I/O. The daemon, subprocesses, HTTP answers, clocks and the file system become parameters or fields:

- a daemon is a sequence (or an indexed oracle) of probe outcomes;
- a streamed answer is a sequence of already-decoded lines plus the iteration at which the timeout's cancel event is set;
- a subprocess is its outcome: exit status with its outputs, a timeout, or an exception;
- the configuration and statistics files are fields holding their parsed content.

Code that changes state step by step is written imperatively:

- classes whose methods update fields: `OllamaClient`, `StatsFile`, `OllamaService`, `ModelConfig`, `AppConfig`, `ProjectStore`, `ConsoleState`, `ModelSelect`, `Assistant`, `Manager`, `StatsSelect`;
- loops with invariants, each proved against a function that specifies it.

Pure branching and string code is written as functions with lemmas about them.

Files:

- `wrappers.dfy`: Option and Result.
- `strings.dfy`: ASCII string helpers — lower-casing, search, split/join, trim, whitespace words, number printing.
- `sorting.dfy`: sorting by a key, as Python's `sort(key=…, reverse=…)` does.
- `config.dfy`: the shared configuration file.
- `stats_log.dfy`: the bounded statistics log, used by both the client and the server.
- One module per source file: `inference.dfy`, `manage_models.dfy`, `app.dfy`, `project_manager.dfy`, `console.dfy`, `common.dfy`, `ollama_page.dfy`.

## Model

| member | source | states |
|---|---|---|
| Inference.RefusedAmong | run-inference.py:69-83 | the number of refused probes among the first n is at most n |
| Inference.ProbeCourses | run-inference.py:59-89 | the probe loop ends in exactly one way: a probe answers 200 before any raises, a probe raises before any answers 200, or all 3 probes do neither |
| Inference.EnsureOllamaRunning | run-inference.py:59-89 | between 1 and 3 probes, every one before the last failed without escaping; running iff the last probe answered 200, iff some probe answers 200 before any raises; the exception escapes iff some probe raises before any answers 200; unavailable iff all 3 probes failed without escaping; one launch per refused probe |
| Inference.AlwaysRefused | run-inference.py:61-83 | a daemon that refuses every probe gets 3 launches |
| Inference.FailureMessage | run-inference.py:162-176 | every message starts with the prefix of its kind; the timeout text names the timeout, the connection text ends with host:port, and any other exception gives the prefix followed by its detail |
| Inference.FailureMessagesDistinct | run-inference.py:120-176 | the timeout, connection and other-exception messages differ from each other and from the daemon-unavailable message |
| Inference.BasicOutcome | run-inference.py:179-209 | the blocking call yields text exactly for a JSON body, namely its `response` field or "" when absent; the alarm gives the timeout failure and a refused connection the connection failure |
| Inference.StreamFrom | run-inference.py:228-247 | the stream loop consumes lines from its position on and never loses tokens already counted |
| Inference.Stream | run-inference.py:212-265 | the streamed run consumes at most the lines given |
| Inference.Responses | run-inference.py:231-240 | at most one `response` per line |
| Inference.StreamText | run-inference.py:228-247 | an exhausted or finished stream's text is the concatenation of the `response` fields of the decoded lines read and its token count their number; no line before the last one read is a `done` chunk, and a finished run ends on one |
| Inference.StreamFromText | run-inference.py:228-247 | the same, from any point of the loop whose prefix is accounted for |
| Inference.StreamIgnoresRest | run-inference.py:244-247 | nothing after the line that stops the stream is read: appending lines does not change the result |
| Inference.StreamStopsAtDeadline | run-inference.py:215-233 | at most `deadline + 1` lines are read; a run aborted by the timeout read exactly that many with at most `deadline` tokens; a run that reaches the deadline line without a `done` chunk is aborted |
| Inference.BlankFirstLine | run-inference.py:236-246 | a blank first line makes the `done` test read an unbound chunk, which surfaces as the generic exception message |
| Inference.StreamFromNotRefused | run-inference.py:228-265 | once the stream is open, it never ends in a connection failure: its aborts are the timeout or an exception from a line |
| Inference.StreamOpen | run-inference.py:224-265 | a refused streaming request gives the connection failure and an HTTP error status the generic exception, before any line is read; an open stream runs as `Stream`; the connection failure happens exactly for a refused request |
| Inference.ProgressMarks | run-inference.py:241-243 | progress is printed at token counts 5, 10, 15, …: n tokens give n/5 prints |
| Inference.OllamaClient.constructor | run-inference.py:40-44 | the host and port are `OLLAMA_API_HOST` and `OLLAMA_API_PORT` when set, localhost and 11434 otherwise; the timeout is 120 s, with no alarm or timer armed |
| Inference.OllamaClient.RunBasic | run-inference.py:179-209 | returns the blocking outcome and clears the alarm on every exit |
| Inference.OllamaClient.RunStream | run-inference.py:212-265 | returns the streamed run `StreamOpen` gives, including a failed opening, and the progress marks of its token count; the timer is cancelled on every exit |
| Inference.OllamaClient.ReadLines | run-inference.py:228-261 | once the request is open, the line loop yields exactly the run `Stream` specifies and the progress marks of its token count, and cancels the timer on every exit |
| Inference.OllamaClient.RunInference | run-inference.py:106-176 | a generate request, carrying the given options, is sent iff some probe answers 200 before any raises; the result is an escaping exception iff some probe raises before any answers 200; the unavailability message comes exactly when all 3 probes failed without raising; otherwise the result is the text or failure message of the blocking or streamed call |
| Inference.DefaultModel | run-inference.py:271-291 | `llama3` for a missing or unreadable file, a missing key or `none`; the configured name otherwise; never `none` |
| Inference.ListingRowOf | run-inference.py:437-442 | a row is marked default iff its name is the default model; a nameless model reads `Inconnu` |
| Inference.Listing | run-inference.py:436-442 | one row per model, in order |
| Inference.RunCli | run-inference.py:392-478 | `--host`, `--port` and a non-zero `--timeout` override the client's settings; the status is 0 or 1; listing gives 0 iff a probe answers 200 before any raises, and never logs statistics; no prompt gives status 1; with a prompt, 0 iff no probe raised before one answered; status 1 leaves the statistics alone; status 0 after an inference appends the command-line entry (the `--model` or configured model, the joined prompt, the returned text) to the log, an unreadable log counting as empty, and keeps the newest 200; rows come only from a listing, namely the models with the configured default marked |
| Inference.CliInference | run-inference.py:450-478 | no prompt gives status 1; otherwise 0 iff no probe raised; status 1 leaves the statistics alone and status 0 appends the command-line entry with the returned text, keeping the newest 200; the client settings are unchanged |
| StatsLog.KeepLast | run-inference.py:324-326 | the last min(n, length) entries of the log, in order |
| StatsLog.AppendBounded | app.py:100-112 | after appending to a log capped at n, the new entry is last, at most n entries remain, and the others are the newest of the old log |
| StatsLog.FullLogDropsOldest | app.py:110-112 | appending to a full log drops exactly its oldest entry |
| StatsLog.StatsFile.constructor | app.py:81-87 | the log starts as the stored content |
| StatsLog.StatsFile.SaveFromCli | run-inference.py:294-330 | the client appends one entry to the log (a missing or unreadable file counting as empty) and keeps the last 200 |
| StatsLog.StatsFile.SaveFromServer | app.py:89-121 | the server appends one entry and keeps the last 200 when the log is readable, and changes nothing otherwise |
| App.CheckModelName | app.py:386-393 | a name passes iff it is a non-empty string of ASCII letters, digits and `:-_.`; a missing or falsy name is the "no name" refusal |
| App.ValidNameHasNoShellChars | app.py:392-393 | a valid name holds no space, `/`, `;`, `&`, the pipe character, `$`, backquote or newline |
| App.ModelRoute | app.py:383-464 | download, delete and set-default refuse a bad name before running anything, succeed iff the script exits with 0 (with the action's message), and report the script's stderr otherwise |
| App.ValidateTest | app.py:469-490 | the test route accepts a truthy body exactly when model and prompt are non-empty strings, the name is valid, the temperature (default 0.7) is a number in [0,1] and max_tokens (default 500) an integer in [1,4000]; the accepted parameters are those values |
| App.RangeChecksRefuse | app.py:486-490 | a non-numeric or too large temperature, or a non-integer or too large max_tokens, is refused |
| App.TrueIsOneToken | app.py:489-490 | a boolean `true` for max_tokens passes as 1, since a Python bool is an int |
| App.ApiTestModel | app.py:466-536 | a refused request gets its refusal message and runs nothing; success iff the inference exits with 0, and then the answer carries its output and the word count of that output, and one entry is saved when the statistics file is readable; a timeout, a non-zero exit and an exception get their own messages and save nothing |
| App.WithModel | app.py:545-546 | the filtered history holds only entries of the model |
| App.WithModelMembers | app.py:545-546 | an entry is kept iff it is in the history and has the model |
| App.InferenceHistory | app.py:538-555 | the history, filtered by a non-empty model filter, is a permutation of the kept entries sorted by timestamp, newest first |
| App.HistoryNewestFirst | app.py:549 | in the answer a later position never has a newer timestamp |
| App.Totals | app.py:564-579 | the totals of a list count its entries |
| App.TotalsTokens | app.py:575-576 | `total_tokens` is the sum of `output_length`, a missing value counting 0 |
| App.UsageCounts | app.py:564-579 | a model's usage count is the number of its entries and its token total the sum of their output lengths |
| App.UsageStep | app.py:564-579 | counting one more entry updates only that entry's model |
| App.TabulateStep | app.py:564-579 | the loop keeps the table of per-model totals and its key order in step with the entries seen |
| App.ModelUsage | app.py:557-594 | one record per model that occurs, each model once, each record holding that model's totals and a positive count |
| App.UsageListing | app.py:580-581 | the records listed from the final table are exactly the per-model totals, once each |
| App.Records | app.py:580-581 | the records of the table in key order |
| App.TrimAll | app.py:671 | every comma-separated field is trimmed, in order |
| App.GpuOfLine | app.py:667-678 | a line gives a GPU record iff it is not blank and has at least 5 comma-separated fields, the record being its first 5 fields trimmed, in order |
| App.GpuRecords | app.py:666-678 | at most one record per line |
| App.GpuLineRoundTrip | app.py:667-678 | joining at least 5 comma-free fields with commas and parsing the line gives back those fields trimmed |
| App.GpuInfo | app.py:649-685 | a GPU list iff `nvidia-smi` exits with 0, and then the records of its trimmed output's lines |
| App.Repaired | app.py:199-239 | after the start-up repair, a missing file holds `llama3` first; with local models a default among them is kept and any other becomes the first local model; with none the default becomes `none`, and a configuration already at `none` is left as it is |
| App.RepairIdempotent | app.py:220-234 | repairing twice is repairing once |
| App.AppConfig.constructor | app.py:53-65 | the configuration holds the stored content |
| App.AppConfig.CheckDependencies | app.py:199-239 | the start-up check leaves the repaired configuration |
| App.ExecuteCommand | app.py:255-289 | an empty command is refused; a timeout gives exit code 124 with the timeout message; a finished command gives its outputs and exit code; only an exception gives an error |
| ManageModels.FirstUp | manage-models.py:79-86 | the first healthy probe among n, with all before it failing, or none |
| ManageModels.Ensure | manage-models.py:92-98 | `ensure_ollama_running` launches only when the first probe fails and the launch is possible; it makes between 1 and 6 requests; when it reports running, its last probe was healthy; after a launch it gives up only once all 6 requests are made |
| ManageModels.EnsureProbes | manage-models.py:79-98 | every probe before the healthy one failed, and when it gives up every probe it made failed |
| ManageModels.OllamaService.constructor | manage-models.py:48-52 | no request made and no launch yet |
| ManageModels.OllamaService.CheckRunning | manage-models.py:54-63 | one request; true iff it answered 200 |
| ManageModels.OllamaService.StartService | manage-models.py:66-89 | one launch, then at most 5 probes, true at the first success; a failed launch makes no probe |
| ManageModels.OllamaService.EnsureRunning | manage-models.py:92-98 | the requests and launches are those of `Ensure` |
| ManageModels.Listing | manage-models.py:101-116 | the names `get_models` returns from a given request on: nothing unless the daemon is (made) available, and exactly the local models when the listing request after the probes then answers 200 |
| ManageModels.ListingUsed | manage-models.py:101-116 | `get_models` makes 1 to 7 requests: one more than the probes exactly when the daemon is running |
| ManageModels.SteadyListing | manage-models.py:101-116 | a daemon that answers every request lists the local models, in two requests |
| ManageModels.OllamaService.GetModels | manage-models.py:101-116 | returns the names `Listing` gives for the current request count and advances the count by `ListingUsed`; launches at most once |
| ManageModels.OllamaService.CheckIfModelExists | manage-models.py:119-122 | true iff the name is in the listing `Listing` gives for the current request count, which is then a local model; the count advances by `ListingUsed` |
| ManageModels.OllamaService.ResolveCurrent | manage-models.py:219-242 | the resolution of the configured name against the listings `LookUp` gives from the current request count, ending at `LookUp`'s request count |
| ManageModels.OllamaService.Pull | manage-models.py:125-160 | success iff the daemon is available and accepts the pull; the model is then listed; the probes are those of `Ensure` |
| ManageModels.OllamaService.Delete | manage-models.py:163-187 | success iff the daemon is available and accepts the deletion; the model is then no longer listed; the probes are those of `Ensure` |
| ManageModels.Pulled | manage-models.py:125-160 | the pulled model is listed, and the other models are kept |
| ManageModels.Without | manage-models.py:163-187 | after a deletion every other model is still listed and the deleted one is not |
| ManageModels.ConfiguredModel | manage-models.py:195-222 | the configured name when the file has one; `llama3` for a missing or unreadable file or a missing key |
| ManageModels.Resolve | manage-models.py:219-242 | `none` gives `aucun_modele_disponible`; a listed configured model is kept; otherwise the first listed model becomes the saved default; with no model at all, `aucun_modele_disponible` |
| ManageModels.ResolveStable | manage-models.py:219-242 | against a steady daemon, the current model is one of the listed models when there are any and the configuration is not `none`, and `aucun_modele_disponible` when there are none |
| ManageModels.ResolveSettles | manage-models.py:225-240 | a saved fallback is kept by the next resolution, except a model named `none` |
| ManageModels.LookUp | manage-models.py:219-242 | the listings `get_current_model` makes: none for `none`; the existence check's listing; a second listing only when the check fails |
| ManageModels.LookUpSteps | manage-models.py:228-233 | the two courses of `LookUp`: the existence check succeeds, or a second listing follows it |
| ManageModels.LookUpSteady | manage-models.py:219-242 | against a daemon that answers every request, the resolution is the one against the local models for both listings |
| ManageModels.AfterResolve | manage-models.py:233-240 | the file changes only when a fallback is saved, and then holds it |
| ManageModels.DefaultAfterPull | manage-models.py:343-352 | the pulled model becomes the default only when the resolution found no model and the confirming listing shows it; otherwise the file is what the resolution left |
| ManageModels.PullSetsDefaultOnlyFromNone | manage-models.py:346-350 | against a steady daemon listing the pulled model: a configuration saying `none` makes it the default; any other keeps the file or leaves a listed default |
| ManageModels.PullDefaultSteady | manage-models.py:343-352 | against a daemon that answers every request, the default after a pull is `DefaultAfterPull` with the local models for every listing |
| ManageModels.DefaultAfterDelete | manage-models.py:367-389 | deleting another model leaves the file alone; deleting the default moves it to the first remaining model, or to `none` when none remain |
| ManageModels.DeleteMovesDefault | manage-models.py:367-389 | a deleted default is always replaced, never kept |
| ManageModels.ModelConfig.constructor | manage-models.py:195-205 | the configuration holds the stored file |
| ManageModels.ModelConfig.GetCurrentModel | manage-models.py:219-242 | returns `Resolve` of the configured model against the listings `LookUp` gives from the current request count, saves its fallback as `AfterResolve` says, and makes no request for `none` |
| ManageModels.ModelConfig.SetDefault | manage-models.py:245-265 | saves the model iff it is in the listing `Listing` gives for the current request count (so it is a local model), and otherwise leaves the file unchanged |
| ManageModels.PullCommand | manage-models.py:332-354 | an empty or invalid name gives 1 without contacting the daemon; 0 iff the name is valid, the daemon is available and the pull is accepted; the default then is `DefaultAfterPull` of the listings made after the pull |
| ManageModels.DeleteCommand | manage-models.py:356-391 | an empty or invalid name gives 1 without contacting the daemon; 0 iff the name is valid, the daemon is available after the resolution and the deletion is accepted; the model is then no longer listed and the default is `DefaultAfterDelete` of the listings made after the deletion |
| ManageModels.DeleteValid | manage-models.py:367-391 | the same course as `DeleteCommand` once the name is valid; a failed deletion keeps the resolution's file |
| ManageModels.DeleteAndReassign | manage-models.py:369-391 | 0 iff the daemon is available and accepts the deletion; then the default is `DefaultAfterDelete` of the next two listings |
| ManageModels.ReassignDefault | manage-models.py:373-387 | the default is `DefaultAfterDelete` of the listing made after the deletion and the one `set_default_model` makes |
| ManageModels.SetDefaultCommand | manage-models.py:393-405 | an empty or invalid name gives 1 without contacting the daemon; 0 iff the name is valid and in the listing made, and then it is a local model and the default |
| ManageModels.Ping | manage-models.py:434-449 | one probe; status 0 and `ok` iff it answered 200, else 1 and `error` |
| Projects.Scrub | project_manager.py:671-672 | every character outside letters, digits, `_` and `-` becomes `_`, one for one |
| Projects.CleanName | project_manager.py:659-673 | the cleaned name is the scrubbed name cut to 50 characters |
| Projects.CleanNameIdempotent | project_manager.py:671-673 | cleaning a cleaned name changes nothing |
| Projects.ProjectId | project_manager.py:124-126 | a project id is the cleaned name, `_`, then the decimal timestamp, all word characters or `-`; for a non-negative timestamp the suffix reads back as the timestamp |
| Projects.IdParts | project_manager.py:126 | joining a cleaned name and digits with `_` gives a prefix, the separator and the digits as suffix |
| Projects.InitialSlashes | project_manager.py:687 | the count of leading slashes normpath keeps: 0, 1 or 2 |
| Projects.Collapse | project_manager.py:687 | the collapsed segments come from the path and hold no `.`, empty segments, or `..` after a name (nor any `..` under the root) |
| Projects.NormPath | project_manager.py:687 | normpath never gives the empty string |
| Projects.CollapseKeepsCollapsed | project_manager.py:687 | collapsing segments that are already collapsed leaves them unchanged |
| Projects.CollapseCancels | project_manager.py:687 | a plain name followed by `..` cancels out: collapsing `a + [x, ".."]` is collapsing `a` |
| Projects.CleanPath | project_manager.py:687-691 | the result is the normalised path with at most one leading `/` removed; it starts with `/` only when the normalised path starts with two |
| Projects.CleanPathRelative | project_manager.py:687-691 | apart from a path with exactly two leading slashes, the cleaned path never starts with `/` |
| Projects.CleanPathKeepsRoot | project_manager.py:687-691 | `//name` cleans to `/name`: an absolute path survives |
| Projects.NormPathDoubleSlash | project_manager.py:687 | normpath keeps exactly two leading slashes |
| Projects.CleanPathKeepsParent | project_manager.py:687-691 | `../name` is returned unchanged: a leading `..` survives |
| Projects.CleanPathOfSegments | project_manager.py:687-691 | a cleaned path is the collapsed segments joined with `/` |
| Projects.SafePath | project_manager.py:675-691 | the corrected cleaner never returns an empty or absolute path or a `..` segment |
| Projects.SafePathAgrees | project_manager.py:675-691 | on a non-empty path without exactly two leading slashes whose collapsed segments are non-empty and free of `..`, the corrected cleaner returns what the code returns |
| Projects.FileType | project_manager.py:693-720 | each listed extension maps to its category; every other extension gives `text` |
| Projects.Extension | project_manager.py:258 | the extension is empty or the last dot and what follows, with a name before it |
| Projects.ExtensionAtLastDot | project_manager.py:258 | conversely, when the last dot has something other than a dot before it the extension is exactly the text from that dot on, and when only dots precede it the extension is empty |
| Projects.UnitOf | project_manager.py:722-739 | B below 1024, KB below 1024², MB below 1024³, GB above |
| Projects.UnitMonotone | project_manager.py:732-739 | a larger size never gets a smaller unit |
| Projects.ByteLabel | project_manager.py:732-733 | a size below 1024 is written as its decimal digits followed by ` B`, and reading the digits back gives the size |
| Strings.NatToStringValue | project_manager.py:733 | reading back the decimal rendering of a number gives the number |
| Projects.Merged | project_manager.py:186-189 | the update copies exactly the allowed keys present in it and keeps the rest |
| Projects.MergedIgnoresOtherKeys | project_manager.py:186-189 | a key outside `name`, `description`, `github_repo` has no effect |
| Projects.MergedIdempotent | project_manager.py:186-189 | applying the same update twice is applying it once |
| Projects.NewMetadata | project_manager.py:137-144 | new metadata has the five keys, created and updated at the same time |
| Projects.WithLocation | project_manager.py:150-152 | `id` and `path` are added |
| Projects.Load | project_manager.py:47-77 | a folder is loaded iff its metadata parses and has `name` and `created_at`; `updated_at` defaults to `created_at` |
| Projects.Loaded | project_manager.py:47-77 | every loaded project has its required keys |
| Projects.LoadedMembers | project_manager.py:47-77 | a project is listed iff some directory entry of the listing loads to it |
| Projects.UpdatedKey | project_manager.py:81 | a missing `updated_at` sorts as `''`, a string as itself, an integer or float by its value; the key is a number iff the value is an orderable non-string |
| Projects.RecordOf | project_manager.py:252-275 | a file record carries the file's name, path, size, type by extension and size unit |
| Projects.Records | project_manager.py:250-276 | no listed file is hidden or `metadata.json` |
| Projects.RecordsMembers | project_manager.py:250-276 | exactly the visible files are listed |
| Projects.ProjectStore.constructor | project_manager.py:21-29 | the store holds the given directory |
| Projects.ProjectStore.CreateProject | project_manager.py:111-162 | an existing id gives None and changes nothing; otherwise the folder is created with fresh metadata |
| Projects.ProjectStore.UpdateProject | project_manager.py:164-206 | a missing project gives None; otherwise only the allowed keys are merged, `updated_at` is refreshed, and other projects are untouched |
| Projects.ProjectStore.GetProjects | project_manager.py:37-82 | the sort raises `TypeError` iff two or more projects have `updated_at` values Python cannot order together; otherwise exactly the loadable projects, sorted by `updated_at`, newest first, each with its required keys |
| Projects.ProjectStore.GetProjectFiles | project_manager.py:230-285 | nothing for a missing project; otherwise the visible files sorted by name |
| Sorting.SortBy | project_manager.py:81 | sorting yields a permutation that is ordered by the key |
| Sorting.SortByMembers | project_manager.py:281 | sorting keeps exactly the elements it was given |
| Console.Recorded | static/js/console.js:666-682 | after recording c the history starts with c and holds at most 100 commands; a repeat of the head changes nothing; otherwise the history grows by one, or keeps its length when full (only the oldest command is dropped) |
| Console.RecordedIdempotent | static/js/console.js:668-670 | recording the same command twice is recording it once |
| Console.Stepped | static/js/console.js:637-646 | the cursor stays in [-1, len-1], moving by one and clamping at the ends |
| Console.SteppedRoundTrip | static/js/console.js:637-646 | a step up then down (or down then up) returns to the same entry away from the ends |
| Console.LoadedHistory | static/js/console.js:698-717 | a missing stored history keeps the current one; an unparsable or non-array one gives []; a stored list keeps its first 100 entries |
| Console.SaveLoadRoundTrip | static/js/console.js:687-717 | loading a saved history of at most 100 commands gives it back |
| Console.LastLines | static/js/console.js:385-387 | the last min(n, length) lines, in order |
| Console.Shown | static/js/console.js:344-390 | the terminal holds at most 1000 lines, ending with the new one |
| Console.ShownAllIsLast | static/js/console.js:385-387 | adding lines one by one leaves the last 1000 lines of the whole transcript: the oldest go first |
| Console.ShownAllAppend | static/js/console.js:385-387 | showing two batches is showing their concatenation |
| Console.Tagged | static/js/console.js:506-521 | one terminal line per text, in order, with its kind |
| Console.Transcript | static/js/console.js:473-577 | an error answer and every failure are written as error lines; a failure is a single line |
| Console.ModeAfter | static/js/console.js:494-535 | interactive mode holds after an answer iff the answer succeeded, the command is not `exit`, and either the mode was on with no `error` in stderr or the command starts with `ssh ` |
| Console.ConnectionMessage | static/js/console.js:561 | the connection prefix followed by the error message, never the timeout prefix |
| Console.TimeoutMessage | static/js/console.js:559 | the timeout prefix, never the connection prefix, and the delay in seconds |
| Console.FailureMessage | static/js/console.js:553-562 | a timeout message starts with `Erreur: ` and names the 30 s delay; an HTTP or network failure starts with `Erreur de connexion: ` and ends with the status or the error message |
| Console.StatusAfter | static/js/console.js:473-571 | the final status is classified exactly: normal mode iff interactive mode was on and the request failed, connection lost iff it got no answer outside interactive mode, daemon down or error for an error answer by its text, interactive or success for exit code 0 by the mode that follows, and the exit code otherwise; never ready or running |
| Console.InteractiveCommandAfter | static/js/console.js:519-533 | empty when interactive mode is off afterwards; when it is on, the running command is kept or the finished `ssh ` command becomes the running one |
| Console.StatusOfAnswer | static/js/console.js:537-547 | an answered command ends as interactive, success or its exit code |
| Console.ErrorOutcome | static/js/console.js:473-502 | an error answer shows the daemon-down lines or the error, leaves interactive mode, and sets the matching status |
| Console.FailureOutcome | static/js/console.js:553-577 | a failed request shows one message, leaves interactive mode and reports a lost connection |
| Console.ConsoleState.constructor | static/js/console.js:22-31 | the console starts with the stored history loaded, the cursor at -1, an empty terminal, nothing running and interactive mode off |
| Console.ConsoleState.LoadCommandHistory | static/js/console.js:698-717 | the history becomes the loaded history |
| Console.ConsoleState.AddToHistory | static/js/console.js:666-682 | the history is recorded, and the cursor is reset and the history saved unless c repeats the head |
| Console.ConsoleState.NavigateHistory | static/js/console.js:633-660 | an empty history is a no-op; otherwise the cursor steps and the input shows its entry, or "" at -1 |
| Console.ConsoleState.AddTerminalLine | static/js/console.js:344-390 | the terminal is the capped terminal with the new line |
| Console.ConsoleState.AddOutput | static/js/console.js:506-521 | each line of the trimmed output is added in turn |
| Console.ConsoleState.AddLines | static/js/console.js:506-521 | each given line is added in turn |
| Console.ConsoleState.EnterInteractiveMode | static/js/console.js:590-606 | interactive mode runs the ssh command |
| Console.ConsoleState.ExitInteractiveMode | static/js/console.js:611-626 | interactive mode is off with no running command |
| Console.ConsoleState.Submit | static/js/console.js:400-583 | blank input and a non-interactive command while one runs change nothing; otherwise the command is recorded only outside both interactive flags, echoed, and sent to the plain or the interactive endpoint, and the input is cleared for a non-interactive call |
| Console.ConsoleState.Send | static/js/console.js:410-454 | the request goes to the interactive endpoint exactly in interactive mode |
| Console.ConsoleState.Echo | static/js/console.js:412-420 | the command is echoed unless it is an interactive input in interactive mode |
| Console.ConsoleState.Complete | static/js/console.js:464-577 | a finished request writes its transcript, clears the running flag, and sets the mode, running command and status that the answer implies |
| Console.ConsoleState.ShowError | static/js/console.js:473-502 | an error answer writes its lines, leaves interactive mode and sets the error status |
| Console.ConsoleState.LeaveOnError | static/js/console.js:490-501 | the error paths leave interactive mode and clear the running flag |
| Console.ConsoleState.WriteError | static/js/console.js:475-488 | a daemon-down error writes the two daemon lines, any other the error itself |
| Console.ConsoleState.ShowAnswer | static/js/console.js:504-548 | an answer writes stdout then stderr lines, remembers a non-empty stdout, and sets mode and status |
| Console.ConsoleState.FinishAnswer | static/js/console.js:523-548 | mode and status follow the answer and the running flag is cleared |
| Console.ConsoleState.SettleStatus | static/js/console.js:537-547 | the status line follows the exit code and the mode |
| Console.ConsoleState.ShowStreams | static/js/console.js:506-521 | stdout lines then stderr lines are written |
| Console.ConsoleState.FollowMode | static/js/console.js:515-535 | the interactive mode after an answer is `ModeAfter` |
| Console.ConsoleState.FailWith | static/js/console.js:553-577 | a failed request writes its message, leaves interactive mode and reports the lost connection |
| Console.Started | static/js/console.js:946-950 | the result section starts iff some line contains the marker |
| Console.KeptLines | static/js/console.js:946-958 | kept lines follow the marker and are neither markers nor excluded |
| Console.KeptAfterMarker | static/js/console.js:946-958 | the kept lines are exactly the qualifying lines after the first marker |
| Console.InferenceResult | static/js/console.js:971-976 | without the marker the whole output is kept |
| Console.ExtractInference | static/js/console.js:939-982 | an empty stdout gives nothing; otherwise the text the collecting loop keeps (the whole output when no marker is seen), and whether the marker was seen |
| Console.CollectKept | static/js/console.js:946-969 | the loop's text is the kept lines, each followed by a newline |
| Console.CollectStep | static/js/console.js:946-958 | one more line extends the text by that line exactly when it is kept |
| Console.KindOf | static/js/console.js:1117-1150 | a directory iff the permissions start with `d`; executable iff not a directory and they hold `x`; otherwise Python, JavaScript, CSS, HTML or Markdown iff the name ends with `.py`, `.js`, `.css`, `.html` or `.md`; any other plain file gets the kind of its lower-cased name by `MediaKind` |
| Console.CodeEndingsExclusive | static/js/console.js:1123-1137 | a name ends with at most one of `.py`, `.js`, `.css`, `.html`, `.md` |
| Console.MediaKind | static/js/console.js:1138-1150 | image, audio, video, document or archive iff the lower-cased name ends with one of that group's extensions and with none of an earlier group; regular iff it ends with none of them |
| Console.ItemPath | static/js/console.js:1163 | the path ends with the name: the name itself in `./`, otherwise after the directory and `/` |
| Console.NameAsWrittenKeepsDate | static/js/console.js:1108-1110 | when the size field equals the year, the name as written includes the date and year |
| Console.SizeIsYearKeepsDate | static/js/console.js:1108-1110 | on `-rw-r--r-- 1 u g 2024 Jan 5 2024 name` the code's name starts with `Jan 5 2024`; the corrected name is `name` |
| Console.NameAfterFields | static/js/console.js:1098-1110 | the name is the text after the eighth field, whose words are the fields from the ninth on |
| Console.NameAfterFieldsKeepsName | static/js/console.js:1108-1110 | the corrected parse returns the name even when the size equals the year |
| Console.ParseLine | static/js/console.js:1098-1163 | a line gives an item iff it has at least 9 fields; its name is the code's (the text after the first occurrence of the eighth field and one separator), a suffix of the line; its permissions and size are the first and fifth fields, its date the sixth to eighth fields joined by spaces, it is hidden iff the name starts with `.` and is neither `.` nor `..`, and its kind and path follow that name |
| Console.ParseLineExact | static/js/console.js:1098-1110 | on a line of eight fields and a name, where the eighth field does not occur earlier, the item is named exactly that name, which is also the intended one |
| Console.PlainLineWords | static/js/console.js:1098 | the words of such a line are its eight fields, then the words of the name |
| Console.PlainLineSplit | static/js/console.js:1108-1109 | such a line is its first seven fields, spaced, then the eighth field, a space and the name |
| Console.FileLines | static/js/console.js:1085 | lines starting with `total` are dropped and all others kept |
| Console.FileLinesAppend | static/js/console.js:1085 | the filter keeps listing order: the lines kept from a concatenation are those kept from each part |
| Console.FileLinesOne | static/js/console.js:1085 | a single line is kept iff it is not a `total` line |
| Console.Entries | static/js/console.js:1097-1100 | at most one item per line |
| Console.EntriesOfParsed | static/js/console.js:1097-1100 | every line with 9 fields gives its item |
| Console.ExploredDirectory | static/js/console.js:1045 | the directory listed is never empty, a blank one meaning `./` |
| Console.ExploreFiles | static/js/console.js:1033-1219 | a failed request, an error or any stderr is shown instead of the listing; otherwise an empty directory, or the entries `ParseLine` gives for the non-`total` lines, named as the code names them |
| Common.IsOllamaConnectionError | static/js/common.js:540-549 | false for empty text; otherwise true iff the lower-cased text contains `localhost:11434`, `connection refused` or `ollama n'est pas` |
| Common.TruncateText | static/js/common.js:645-649 | text within the bound is unchanged; longer text is its first maxLength characters and `...` |
| Common.TruncateIdempotent | static/js/common.js:645-649 | truncating twice is truncating once |
| Common.Toggled | static/js/common.js:93-95 | `dark` becomes `light` and everything else `dark` |
| Common.ToggleTwice | static/js/common.js:93-95 | toggling twice restores a light or dark theme |
| Common.OptionFor | static/js/common.js:482-495 | the option's value is the model name, labelled ` (défaut)` iff it is the default |
| Common.ModelOptions | static/js/common.js:482-512 | one option per model, in order |
| Common.LastMatch | static/js/common.js:508-510 | the index of the last model with the name, with no later match, or -1 when none has it |
| Common.FirstMatch | static/js/common.js:516-521 | the index of the first model with the name, with no earlier match, or -1 when none has it |
| Common.DomSelected | static/js/common.js:508-512 | the browser selects the last option naming the current model, else the first option, never none |
| Common.DomSelectedIgnoresDefault | static/js/common.js:515-522 | with no current model the selector shows the first model even when the second is the default |
| Common.Selected | static/js/common.js:508-522 | the current model when listed, else the default when listed, else the first option |
| Common.RunningFrom | static/js/common.js:607-620 | the daemon runs iff the answer came, carries no connection error and lists a model |
| Common.ModelSelect.constructor | static/js/common.js:445-447 | an empty, enabled selector with nothing selected |
| Common.ModelSelect.ShowNone | static/js/common.js:450-473 | a single `none` option with its label, selected |
| Common.ModelSelect.Fill | static/js/common.js:482-512 | one option per model, and the browser's selection |
| Common.ModelSelect.SelectDefaultIfNone | static/js/common.js:515-522 | only when nothing is selected and a default is named, selects the first option whose value is the default; otherwise, or when no option has it, the selection stays |
| Common.Assistant.constructor | static/js/common.js:74-77 | the saved theme or `dark`, an empty cache, and an unknown daemon state |
| Common.Assistant.ToggleTheme | static/js/common.js:93-107 | the theme toggles and is saved; nothing else changes |
| Common.Assistant.UpdateModelSelectElement | static/js/common.js:445-534 | an error payload gives a single `none` option, hands the callback no models, and marks the daemon down on a connection error; no models gives a `none` option and a running daemon; otherwise one option per model, with the browser's selection: the last option naming the current model, else the first option, since the `selectedIndex < 0` fallback never applies |
| Common.Assistant.LoadModelsList | static/js/common.js:392-437 | the cached list is used iff not forced, present and younger than 60000 ms, and is then shown and delivered as `updateModelSelectElement` shows it; a fetched list is cached with its time and shown the same way; a failed request shows `Erreur de connexion` and delivers its message with no models |
| Common.Assistant.UpdateCurrentModel | static/js/common.js:557-592 | `''`, `none` and `loading` are refused without any request; the current model changes only on a successful answer |
| Common.Assistant.IsOllamaRunning | static/js/common.js:599-627 | a known state is returned without a request; otherwise it is computed and remembered |
| Common.ErrorLabel | static/js/common.js:450-459 | a connection error reads `Ollama non disponible`, any other `Erreur de chargement` |
| OllamaPage.Tags | static/js/ollama.js:345-385 | at most one tag per rule |
| OllamaPage.TagsIff | static/js/ollama.js:347-382 | a tag is emitted iff the lower-cased name contains one of its substrings |
| OllamaPage.TagsDistinct | static/js/ollama.js:350-381 | rules with distinct tags give each tag at most once |
| OllamaPage.TagRulesDistinct | static/js/ollama.js:350-381 | the page's rules have distinct tags |
| OllamaPage.GetModelTags | static/js/ollama.js:345-385 | the tags of the lower-cased name, in the fixed check order |
| OllamaPage.ApplyRules | static/js/ollama.js:347-382 | the loop pushes the tag of each matching rule, in order |
| OllamaPage.ModelTagsProperties | static/js/ollama.js:347-382 | the tags of a name are distinct, and a tag is shown iff one of its patterns occurs in the lower-cased name |
| OllamaPage.TaggedBy | static/js/ollama.js:347-382 | a name that passes a check carries that check's tag |
| OllamaPage.Llama3Tagged | static/js/ollama.js:347-371 | `llama3:8b` is tagged as llama and as 8B |
| OllamaPage.DownloadToast | static/js/ollama.js:420-488 | the download ends in success iff the answer came without error and reports success |
| OllamaPage.TestOutcome | static/js/ollama.js:601-678 | the test shows output iff the answer came without error and reports success, and a daemon-down notice iff the error is a connection error |
| OllamaPage.Manager.constructor | static/js/ollama.js:17-76 | no download or test running, one refresh timer |
| OllamaPage.Manager.StartDownload | static/js/ollama.js:390-402 | an empty name or a running download is refused with a warning; otherwise the flag is set |
| OllamaPage.Manager.FinishDownload | static/js/ollama.js:420-488 | the flag is cleared on both paths, and the list reloads only on success |
| OllamaPage.Manager.StartTest | static/js/ollama.js:549-600 | no model, an empty prompt or a running test is refused; otherwise the request asks for 500 tokens |
| OllamaPage.Manager.FinishTest | static/js/ollama.js:601-678 | the flag is cleared on both paths; a successful test makes the model the default |
| OllamaPage.Manager.Cleanup | static/js/ollama.js:811-815 | every refresh timer is cleared and the list is empty |
| OllamaPage.Filtered | static/js/ollama.js:706-712 | `all` keeps everything; otherwise exactly the entries of the selected model |
| OllamaPage.FilteredAppend | static/js/ollama.js:706-712 | filtering keeps history order: the filter of a concatenation is the concatenation of the filters, and one entry is kept iff `all` is selected or it is of the selected model |
| OllamaPage.FilteredCounts | static/js/ollama.js:706-712 | for one selected model, each entry of that model is kept as many times as the history holds it and every other entry is dropped |
| OllamaPage.TotalTokens | static/js/ollama.js:715 | the sum of no entries is 0; with non-negative lengths the sum is non-negative and at least every single length |
| OllamaPage.TotalTime | static/js/ollama.js:716 | the sum of no entries is 0; with non-negative times the sum is non-negative and at least every single time |
| OllamaPage.TotalsAppend | static/js/ollama.js:715-717 | the totals of a concatenation are the sums of the totals |
| OllamaPage.TotalsOfEmptyEntries | static/js/ollama.js:715-717 | missing lengths and times count as 0 |
| OllamaPage.StatsSummary | static/js/ollama.js:681-730 | an error or empty history gives zeros; otherwise the count of the filtered entries, with averages of 0 when the count is 0 and memory 1.5 × average tokens |
| OllamaPage.AllCoversHistory | static/js/ollama.js:706-723 | `all` counts every entry, with the average time over all of them |
| OllamaPage.StatsSelect.constructor | static/js/ollama.js:762-770 | `all` alone, selected |
| OllamaPage.StatsSelect.UpdateStatsModelSelect | static/js/ollama.js:762-789 | the options are `all` followed by the models in order, and the previous selection is restored (its first occurrence) when still present, else `all` |
| OllamaPage.CardFor | static/js/ollama.js:270-295 | a card is marked default, and gets the delete button, iff its name is the default |
| OllamaPage.ModelsGrid | static/js/ollama.js:248-340 | an error, no models, or one card per model in order, with the delete action exactly on the default model |
| OllamaPage.OneDefaultCard | static/js/ollama.js:273-292 | with distinct names, at most one card is marked default |
| OllamaPage.ModelNames | static/js/ollama.js:762-789 | the names of the models, in order |
| OllamaPage.LoadModelsGrid | static/js/ollama.js:248-340 | the grid of the answer, and the statistics selector refilled only when it has cards |
| OllamaPage.ListingView | static/js/ollama.js:205-246 | the grid is shown iff the list has no error and some model; otherwise the page shows its warning asking to start the daemon |

## Left out

- HTTP, subprocesses, `signal.alarm`, `threading.Timer`, `setTimeout`/`setInterval`, the DOM, `localStorage` and file I/O are not modelled. Their outcomes are parameters: probe sequences, decoded stream lines with a cancel iteration, subprocess outcomes, or stored contents. Writes of the configuration and statistics files are taken to succeed.
- `OllamaClient.get_models` (run-inference.py:92-103) is not modelled. The model list is a parameter of `Inference.RunCli`.
- Floating-point formatting is not modelled: `_format_size`'s `.1f` values, `round`/`toFixed`, token rates, and averages in `api_model_usage` and `api_performance`. `api_performance` (app.py:596-647) is left out entirely. Temperatures and times are `real`.
- Character classes and case are ASCII only. `isalnum` and `\w` accept only ASCII letters and digits. Whitespace (`trim`, `\s`, `split()`, `isspace`) is the six ASCII space characters: `isspace` and `split()` also accept `\x1c`–`\x1f` and the Unicode spaces, and `trim`/`\s` accept the Unicode spaces. `lower()`/`toLowerCase()` fold only `A`–`Z`. `truncateText` counts characters, where JavaScript counts UTF-16 code units, so a text with characters outside the Basic Multilingual Plane is cut at a different place.
- The unmodelled app.py routes and helpers:
  - `execute_interactive` (app.py:291-371), the simulated SSH session with its date-dependent output;
  - `api_models`, `api_current_model` and `OllamaManager`, which are glue around the model manager;
  - the page routes.
- The project manager's document operations are left out: `get_document`, `create_document`, `update_document`, `delete_document`, `import_folder`, `import_file` and `analyze_document`. They are file I/O with canned text. Their path handling is `_clean_path`, which is modelled.
- `manage-models.py`'s `list_models`, `get_current_model_info`, `show_models_info` and `main` are left out. They are argparse glue and printing, and `main` registers `--host`/`--port` twice.
- `runInference` in console.js is reduced to its stdout-parsing loop. The rest uses undeclared globals.
- `Inference.RunCli`: argparse itself is not modelled. `--timeout 0` is read as "not given", like the code's `if args.timeout`.
- App.ModelUsage: the order of the records (first appearance in the history, the insertion order of the Python dictionary) is not stated; only their contents and that each model has exactly one.
- `Sorting.SortBy`: stability of Python's sort is not stated. Only "ordered permutation" is proved.
- `ManageModels.OllamaService.Pull`: the daemon's own order of listed models is unknown. A pulled model is listed last.
- Projects.UpdatedKey: list and object values of `updated_at` count as unorderable, so two or more projects with them make `GetProjects` fail; Python orders two lists element by element and raises only for objects.
- Projects.ProjectStore.GetProjects: the `TypeError` of the sort is returned as `Err("TypeError")` instead of being raised.
- `ManageModels.Ensure`: the process is not modelled. The launch is only a count, and the 2-second and 1-second waits are left out.

## Findings

| source | as written | input that shows it | evidently intended | confidence | as-written member | corrected member |
|---|---|---|---|---|---|---|
| project_manager.py:687-691 | `_clean_path` runs normpath, then strips one leading `/` | `//etc/passwd` cleans to `/etc/passwd`, because normpath keeps two leading slashes; `../secret` is returned unchanged | the comments promise a path with no `..` and no leading `/` | not executed | Projects.CleanPathKeepsRoot | Projects.SafePath |
| static/js/common.js:508-522 | the fallback to `data.default` runs only when `selectedIndex < 0` | a list `[a, b]` with default `b` and no current model: the browser already selects `a`, so `b` is never selected | select the default model when the current one is not listed | not executed | Common.DomSelectedIgnoresDefault | Common.Selected |
| static/js/console.js:1108-1110 | the name starts after the first occurrence of the eighth field anywhere in the line | `-rw-r--r-- 1 u g 2024 Jan 5 2024 notes.txt` gives the name `Jan 5 2024 notes.txt` | the name is what follows the eighth field | not executed | Console.SizeIsYearKeepsDate | Console.NameAfterFieldsKeepsName |
