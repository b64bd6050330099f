/** The client's configuration store (core/config_manager.py), as its in-memory map: the API key
    and base URL accessors, their setters, the presence test and the reset. Every setter also
    writes the file, which is outside this model. */
module ConfigManager {
  import opened JsonValues

  /** The loaded configuration: whatever `json.load` produced for the file, or `{}`. */
  type Config = Object

  /** `get_api_key`: the stored value, or None. */
  function GetApiKey(c: Config): (v: Json)
    ensures "api_key" !in c ==> v == JNull
  {
    Get(c, "api_key")
  }

  /** `get_api_base`: the stored value, or None. */
  function GetApiBase(c: Config): (v: Json)
    ensures "api_base" !in c ==> v == JNull
  {
    Get(c, "api_base")
  }

  /** `set_api_key`: stores the key, and nothing else changes. */
  function SetApiKey(c: Config, apiKey: string): (r: Config)
    ensures GetApiKey(r) == JStr(apiKey)
    ensures forall k :: k != "api_key" ==> (k in r <==> k in c) && (k in c ==> r[k] == c[k])
  {
    c["api_key" := JStr(apiKey)]
  }

  /** `set_api_base`: a non-empty base is stored, an empty one removes the entry; nothing else
      changes. */
  function SetApiBase(c: Config, apiBase: string): (r: Config)
    ensures apiBase != "" ==> GetApiBase(r) == JStr(apiBase)
    ensures apiBase == "" ==> "api_base" !in r
    ensures forall k :: k != "api_base" ==> (k in r <==> k in c) && (k in c ==> r[k] == c[k])
  {
    if apiBase != "" then c["api_base" := JStr(apiBase)] else c - {"api_base"}
  }

  /** `set_api_config`: the key, then the base. */
  function SetApiConfig(c: Config, apiKey: string, apiBase: string): (r: Config)
    ensures forall k :: k != "api_key" && k != "api_base" ==> (k in r <==> k in c) && (k in c ==> r[k] == c[k])
  {
    SetApiBase(SetApiKey(c, apiKey), apiBase)
  }

  /** `has_api_config`: a key is stored and is truthy. */
  predicate HasApiConfig(c: Config): (b: bool)
    ensures "api_key" !in c ==> !b
    ensures GetApiKey(c) == JStr("") ==> !b
    ensures GetApiKey(c).JStr? ==> (b <==> GetApiKey(c) != JStr(""))
  {
    Truthy(Get(c, "api_key"))
  }

  /** `reset`: nothing is configured any more. */
  function Reset(c: Config): (r: Config)
    ensures r == map[] && !HasApiConfig(r) && GetApiBase(r) == JNull
  {
    map[]
  }

  /** Setting the key leaves the base alone, and the reverse. */
  lemma SettersIndependent(c: Config, apiKey: string, apiBase: string)
    ensures GetApiBase(SetApiKey(c, apiKey)) == GetApiBase(c)
    ensures GetApiKey(SetApiBase(c, apiBase)) == GetApiKey(c)
  {
  }

  /** After `set_api_config(k, b)` the key reads back as `k`, the base as `b` (or None for an empty
      `b`), and the config counts as present exactly when `k` is non-empty. */
  lemma ApiConfigReadsBack(c: Config, apiKey: string, apiBase: string)
    ensures GetApiKey(SetApiConfig(c, apiKey, apiBase)) == JStr(apiKey)
    ensures GetApiBase(SetApiConfig(c, apiKey, apiBase)) == if apiBase == "" then JNull else JStr(apiBase)
    ensures HasApiConfig(SetApiConfig(c, apiKey, apiBase)) <==> apiKey != ""
  {
  }

  /** Setting the same key twice is the same as setting it once. */
  lemma SetApiKeyIdempotent(c: Config, apiKey: string)
    ensures SetApiKey(SetApiKey(c, apiKey), apiKey) == SetApiKey(c, apiKey)
  {
  }

  /** Clearing the base twice is the same as clearing it once. */
  lemma ClearBaseIdempotent(c: Config)
    ensures SetApiBase(SetApiBase(c, ""), "") == SetApiBase(c, "")
  {
  }
}
