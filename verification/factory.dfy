/** Provider construction (core/providers/factory.py): which backend a model name or base URL
    selects, and how the requested provider type is resolved. */
module ProviderFactory {
  import opened Wrappers
  import opened PyStrings
  import OpenAiProvider
  import GeminiProvider

  const GEMINI_MODEL_PREFIXES: seq<string> := ["gemini-", "models/gemini"]

  /** The host whose presence in the base URL selects Gemini. */
  const GEMINI_HOST: string := "generativelanguage.googleapis.com"

  /** The loop over the prefixes: does `s` start with one of them? */
  function StartsWithAny(s: string, prefixes: seq<string>): (b: bool)
    ensures b <==> exists i :: 0 <= i < |prefixes| && StartsWith(s, prefixes[i])
  {
    if prefixes == [] then false
    else StartsWith(s, prefixes[0]) || StartsWithAny(s, prefixes[1..])
  }

  /** `_detect_provider`: "gemini" for a Gemini model name (in any case) or a base URL on the Gemini
      host, "openai" otherwise. */
  function DetectProvider(model: string, baseUrl: Option<string>): (r: string)
    ensures r == "gemini" || r == "openai"
  {
    if StartsWithAny(Lower(model), GEMINI_MODEL_PREFIXES) then "gemini"
    else if baseUrl.Some? && baseUrl.value != "" && Contains(baseUrl.value, GEMINI_HOST) then "gemini"
    else "openai"
  }

  /** Gemini exactly when the lower-cased model name starts with one of the two prefixes or the
      base URL mentions the Gemini host; the truthiness test on the URL changes nothing. */
  lemma DetectionIff(model: string, baseUrl: Option<string>)
    ensures DetectProvider(model, baseUrl) == "gemini" <==>
      || StartsWith(Lower(model), "gemini-") || StartsWith(Lower(model), "models/gemini")
      || (baseUrl.Some? && Contains(baseUrl.value, GEMINI_HOST))
  {
    assert GEMINI_MODEL_PREFIXES[0] == "gemini-" && GEMINI_MODEL_PREFIXES[1] == "models/gemini";
    if baseUrl.Some? && baseUrl.value == "" {
      assert !Contains(baseUrl.value, GEMINI_HOST);
    }
  }

  lemma LowerIdempotent(s: string)
    ensures Lower(Lower(s)) == Lower(s)
  {
  }

  /** The detection ignores the case of the model name. */
  lemma DetectIgnoresCase(model: string, baseUrl: Option<string>)
    ensures DetectProvider(Lower(model), baseUrl) == DetectProvider(model, baseUrl)
  {
    LowerIdempotent(model);
  }

  /** Any model whose name starts with "gemini-" in any case is a Gemini model, whatever the URL. */
  lemma GeminiPrefixDetected(rest: string, baseUrl: Option<string>)
    ensures DetectProvider("GEMINI-" + rest, baseUrl) == "gemini"
    ensures DetectProvider("models/gemini" + rest, baseUrl) == "gemini"
  {
    assert Lower("GEMINI-" + rest)[..7] == "gemini-";
    assert Lower("models/gemini" + rest)[..13] == "models/gemini";
    DetectionIff("GEMINI-" + rest, baseUrl);
    DetectionIff("models/gemini" + rest, baseUrl);
  }

  /** A Gemini base URL selects Gemini for any model name. */
  lemma GeminiHostDetected(model: string, prefix: string, suffix: string)
    ensures DetectProvider(model, Some(prefix + GEMINI_HOST + suffix)) == "gemini"
  {
    var url := prefix + GEMINI_HOST + suffix;
    assert OccursAt(url, GEMINI_HOST, |prefix|) by {
      assert url[|prefix|..|prefix| + |GEMINI_HOST|] == GEMINI_HOST;
    }
    DetectionIff(model, Some(url));
  }

  /** The backend built, with its configuration. */
  datatype Provider = OpenAiBackend(openAi: OpenAiProvider.OpenAi) | GeminiBackend(gemini: GeminiProvider.Gemini)

  /** `provider_type.lower().strip()`, with "auto" replaced by the detection. */
  function ResolvedType(providerType: string, model: string, baseUrl: Option<string>): (t: string)
    ensures Strip(Lower(providerType)) == "auto" ==> t == DetectProvider(model, baseUrl)
    ensures Strip(Lower(providerType)) != "auto" ==> t == Strip(Lower(providerType))
  {
    var t := Strip(Lower(providerType));
    if t == "auto" then DetectProvider(model, baseUrl) else t
  }

  /** `create_provider`: Gemini for the resolved type "gemini"; every other type, unknown ones
      included, gives an OpenAI provider whose base URL is the given one, or the local default when
      none (or an empty one) is given. */
  function CreateProvider(apiKey: string, model: string, baseUrl: Option<string>, timeout: real,
                          providerType: string): (p: Provider)
    ensures p.GeminiBackend? <==> ResolvedType(providerType, model, baseUrl) == "gemini"
    ensures p.GeminiBackend? ==> p.gemini == GeminiProvider.Gemini(apiKey, model, baseUrl, timeout)
    ensures p.OpenAiBackend? ==>
      p.openAi == OpenAiProvider.New(apiKey, model,
                                     if baseUrl.Some? && baseUrl.value != "" then baseUrl.value
                                     else OpenAiProvider.DEFAULT_BASE_URL, timeout)
  {
    if ResolvedType(providerType, model, baseUrl) == "gemini" then
      GeminiBackend(GeminiProvider.Gemini(apiKey, model, baseUrl, timeout))
    else
      var base := if baseUrl.Some? && baseUrl.value != "" then baseUrl.value else OpenAiProvider.DEFAULT_BASE_URL;
      OpenAiBackend(OpenAiProvider.New(apiKey, model, base, timeout))
  }

  /** With "auto" (in any case and padding) the backend follows the detection. */
  lemma AutoFollowsDetection(apiKey: string, model: string, baseUrl: Option<string>, timeout: real, providerType: string)
    requires Strip(Lower(providerType)) == "auto"
    ensures CreateProvider(apiKey, model, baseUrl, timeout, providerType).GeminiBackend?
      <==> DetectProvider(model, baseUrl) == "gemini"
  {
  }

  /** A type that normalises to "gemini" builds the Gemini backend whatever the model and URL. */
  lemma ExplicitGemini(apiKey: string, model: string, baseUrl: Option<string>, timeout: real, providerType: string)
    requires Strip(Lower(providerType)) == "gemini"
    ensures CreateProvider(apiKey, model, baseUrl, timeout, providerType)
      == GeminiBackend(GeminiProvider.Gemini(apiKey, model, baseUrl, timeout))
  {
  }

  /** Any other type without a base URL builds an OpenAI backend on the local default endpoint. */
  lemma OpenAiDefaultBase(apiKey: string, model: string, timeout: real, providerType: string)
    requires Strip(Lower(providerType)) !in ["gemini", "auto"]
    ensures CreateProvider(apiKey, model, None, timeout, providerType)
      == OpenAiBackend(OpenAiProvider.New(apiKey, model, OpenAiProvider.DEFAULT_BASE_URL, timeout))
  {
  }
}
