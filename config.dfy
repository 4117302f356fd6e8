/**
  `load_config` (generate_timesheet.py, lines 19-51): the built-in defaults,
  overridden key by key by whatever `config.json` holds. Reading the file is
  outside the model; its possible outcomes are a parameter.
 */
module Config {

  /** A configuration dictionary: keys and string values. */
  type Settings = map<string, string>

  const EmployeeKey: string := "default_employee"
  const SupervisorKey: string := "default_supervisor"
  const LanguageKey: string := "language"

  const Defaults: Settings := map[
    EmployeeKey := "Maria Elena Rodriguez Garcia",
    SupervisorKey := "Carlos Alberto Martinez Silva",
    LanguageKey := "es"]

  /** What `json.load` made of the file, when it could be opened and decoded. */
  datatype Document = JsonObject(fields: Settings) | JsonNonObject

  /** The outcomes of looking for and reading `config.json`. */
  datatype ConfigFile =
    | Missing                      // the path does not exist
    | Loaded(document: Document)   // `json.load` returned a value
    | DecodeError                  // `json.JSONDecodeError`
    | ReadError                    // any other exception while reading

  /** `{**defaults, **overrides}`: every key of either, the override's value winning. */
  function Merge(defaults: Settings, overrides: Settings): (r: Settings)
    ensures r.Keys == defaults.Keys + overrides.Keys
    ensures forall k :: k in overrides ==> r[k] == overrides[k]
    ensures forall k :: k in defaults && k !in overrides ==> r[k] == defaults[k]
  {
    defaults + overrides
  }

  /** The dictionary `load_config` returns. A document that is not a JSON object
      makes the merge raise `TypeError`, which the catch-all handler turns into
      the defaults, like every other failure. */
  function LoadConfig(file: ConfigFile): (r: Settings)
    ensures Defaults.Keys <= r.Keys
    ensures file.Loaded? && file.document.JsonObject? ==>
              && r.Keys == Defaults.Keys + file.document.fields.Keys
              && forall k :: k in file.document.fields ==> r[k] == file.document.fields[k]
    ensures !(file.Loaded? && file.document.JsonObject?) ==> r == Defaults
  {
    match file
    case Loaded(JsonObject(fields)) => Merge(Defaults, fields)
    case _ => Defaults
  }

  /** The three lookups the example run performs (`config["default_employee"]`,
      `config["default_supervisor"]`, `config["language"]`) never fail, and a key
      the file does not set keeps its built-in value. */
  lemma LoadConfigKeepsDefaults(file: ConfigFile, k: string)
    ensures EmployeeKey in LoadConfig(file) && SupervisorKey in LoadConfig(file) && LanguageKey in LoadConfig(file)
    ensures k in Defaults && !(file.Loaded? && file.document.JsonObject? && k in file.document.fields) ==>
              LoadConfig(file)[k] == Defaults[k]
  {
  }

  /** An empty JSON object changes nothing, and a file that sets only known
      keys adds no new key. */
  lemma MergeKeepsKeySet(defaults: Settings, overrides: Settings)
    ensures Merge(defaults, map[]) == defaults
    ensures overrides.Keys <= defaults.Keys ==> Merge(defaults, overrides).Keys == defaults.Keys
  {
  }
}
