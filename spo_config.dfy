/** Configuration of the SPO triple extractor: model, API key resolution and base URL. */
module SpoConfig {
  import opened Wrappers
  import opened Decimals


  datatype ExtractorConfig = ExtractorConfig(
    modelName: string, apiKey: string, baseUrl: Option<string>, temperature: Decimal, maxTokens: int)

  const OpenRouterUrl: string := "https://openrouter.ai/api/v1"
  const MissingKey: string := "API key未设置。请设置环境变量 OPENROUTER_API_KEY 或 OPENAI_API_KEY，或者在初始化时传入api_key参数。"

  /** `x or y` for an optional string: an empty string is falsy. */
  function OrElse(x: Option<string>, y: Option<string>): Option<string> {
    if x.Some? && x.value != "" then x else y
  }

  /**
   * The constructor's key handling: an explicit key wins, otherwise the environment variable
   * of the chosen provider; no non-empty key raises `ValueError`.  `env` reads the environment.
   */
  function Configure(modelName: string, apiKey: Option<string>, baseUrl: Option<string>,
                     temperature: Decimal, maxTokens: int, useOpenRouter: bool,
                     env: string -> Option<string>): (r: Result<ExtractorConfig, string>)
    ensures var envKey := env(if useOpenRouter then "OPENROUTER_API_KEY" else "OPENAI_API_KEY");
      r.Ok? <==> (apiKey.Some? && apiKey.value != "") || (envKey.Some? && envKey.value != "")
    ensures r.Ok? && apiKey.Some? && apiKey.value != "" ==> r.value.apiKey == apiKey.value
    ensures r.Ok? ==> r.value.apiKey != "" && r.value.modelName == modelName
    ensures r.Ok? && useOpenRouter ==> r.value.baseUrl.Some?
    ensures r.Ok? && baseUrl.Some? && baseUrl.value != "" ==> r.value.baseUrl == baseUrl
  {
    var key := OrElse(apiKey, env(if useOpenRouter then "OPENROUTER_API_KEY" else "OPENAI_API_KEY"));
    var url := if useOpenRouter then OrElse(baseUrl, Some(OpenRouterUrl)) else OrElse(baseUrl, None);
    if key.None? || key.value == "" then Err(MissingKey)
    else Ok(ExtractorConfig(modelName, key.value, url, temperature, maxTokens))
  }
}
