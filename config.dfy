/** The configuration file `ollama_config.json`, shared by the command-line client,
    the model manager and the web server. Its only key of interest is `default_model`. */
module OllamaConfig {
  import opened Wrappers

  /** The file as its readers see it: absent, present but not parsable, or a JSON
      object whose `default_model` key may be missing. */
  datatype ConfigFile = NoFile | Corrupt | Config(defaultModel: Option<string>)
}
