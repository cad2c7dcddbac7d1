/** Provider dispatch of `backend/app/ai.py`: `get_insight(text)` picks one
    text-generation backend from the provider name read once at import,
    checks that the backend's SDK imported and that its credentials are set,
    and either returns a fixed "not configured" sentence or makes exactly
    one SDK call. The SDK call itself is an oracle that answers or raises. */
module Provider {
  import opened Optional

  /** Which optional SDK modules imported successfully. */
  datatype Sdks = Sdks(openai: bool, genai: bool, deepseek: bool)

  /** The environment variables read on every call. */
  datatype Credentials = Credentials(
    googleApiKey: Option<string>,
    deepseekApiKey: Option<string>,
    azureKey: Option<string>,
    azureEndpoint: Option<string>,
    azureDeployment: Option<string>,
    openaiApiKey: Option<string>)

  /** Process-wide setup: the provider name fixed at import, the SDKs that
      imported, and the credentials visible at call time. */
  datatype Config = Config(provider: string, sdks: Sdks, creds: Credentials)

  datatype Message = Message(role: string, content: string)

  /** The single SDK request `get_insight` would issue. */
  datatype ProviderCall =
    | GeminiGenerate(apiKey: string, model: string, text: string)
    | DeepSeekChat(apiKey: string, model: string, messages: seq<Message>)
    | AzureChat(apiKey: string, apiBase: string, apiVersion: string, engine: string, messages: seq<Message>)
    | OpenAIChat(apiKey: string, model: string, messages: seq<Message>)

  /** A Python value returned by `get_insight`: a string, `None`, or some
      other object. */
  datatype Reply = Str(text: string) | NoneValue | NonString

  /** What a call of `get_insight` (or of an SDK) does: return a value or
      raise an exception. */
  datatype Outcome = Returned(value: Reply) | Raised

  /** `get_insight` either answers in-band that the backend is not
      configured, or makes one SDK call. */
  datatype Dispatch = NotConfigured(sentinel: string) | Call(call: ProviderCall)

  /** The four backends; any provider name other than the first three
      selects OpenAI. */
  datatype Backend = Google | DeepSeek | Azure | OpenAI

  const DefaultProvider := "openai"
  const GoogleSentinel := "Google AI Studio not configured."
  const DeepSeekSentinel := "DeepSeek not configured."
  const AzureSentinel := "Azure OpenAI not configured."
  const OpenAISentinel := "OpenAI not configured."
  const GeminiModel := "gemini-1.5-pro"
  const DeepSeekModel := "deepseek-chat"
  const OpenAIModel := "gpt-3.5-turbo"
  const AzureApiVersion := "2023-05-15"

  /** `os.getenv("AI_PROVIDER", "openai")`, evaluated once at import. */
  function ProviderSetting(aiProvider: Option<string>): (p: string)
    ensures aiProvider.None? ==> p == DefaultProvider
    ensures aiProvider.Some? ==> p == aiProvider.value
  {
    aiProvider.GetOr(DefaultProvider)
  }

  /** The backend a provider name selects. */
  function BackendOf(provider: string): Backend {
    if provider == "google" then Google
    else if provider == "deepseek" then DeepSeek
    else if provider == "azure" then Azure
    else OpenAI
  }

  /** The sentence returned when `b` lacks its SDK or a credential. */
  function SentinelOf(b: Backend): string {
    match b
    case Google => GoogleSentinel
    case DeepSeek => DeepSeekSentinel
    case Azure => AzureSentinel
    case OpenAI => OpenAISentinel
  }

  /** What backend `b` needs before it calls out: its SDK and every one of
      its credentials set to a non-empty value. */
  predicate Ready(b: Backend, sdks: Sdks, creds: Credentials) {
    match b
    case Google => sdks.genai && Truthy(creds.googleApiKey)
    case DeepSeek => sdks.deepseek && Truthy(creds.deepseekApiKey)
    case Azure =>
      sdks.openai && Truthy(creds.azureKey) && Truthy(creds.azureEndpoint) && Truthy(creds.azureDeployment)
    case OpenAI => sdks.openai && Truthy(creds.openaiApiKey)
  }

  /** Two credential sets agree on everything backend `b` reads. */
  predicate SameCredentialsFor(b: Backend, c1: Credentials, c2: Credentials) {
    match b
    case Google => c1.googleApiKey == c2.googleApiKey
    case DeepSeek => c1.deepseekApiKey == c2.deepseekApiKey
    case Azure =>
      c1.azureKey == c2.azureKey && c1.azureEndpoint == c2.azureEndpoint && c1.azureDeployment == c2.azureDeployment
    case OpenAI => c1.openaiApiKey == c2.openaiApiKey
  }

  /** The prompt a call carries, and whether it is sent as exactly one
      user message. */
  function PromptOf(c: ProviderCall): string {
    match c
    case GeminiGenerate(_, _, text) => text
    case DeepSeekChat(_, _, ms) => if |ms| == 1 then ms[0].content else ""
    case AzureChat(_, _, _, _, ms) => if |ms| == 1 then ms[0].content else ""
    case OpenAIChat(_, _, ms) => if |ms| == 1 then ms[0].content else ""
  }

  predicate SingleUserMessage(c: ProviderCall) {
    match c
    case GeminiGenerate(_, _, _) => true
    case DeepSeekChat(_, _, ms) => |ms| == 1 && ms[0].role == "user"
    case AzureChat(_, _, _, _, ms) => |ms| == 1 && ms[0].role == "user"
    case OpenAIChat(_, _, ms) => |ms| == 1 && ms[0].role == "user"
  }

  /** The backend a call goes to. */
  function BackendOfCall(c: ProviderCall): Backend {
    match c
    case GeminiGenerate(_, _, _) => Google
    case DeepSeekChat(_, _, _) => DeepSeek
    case AzureChat(_, _, _, _, _) => Azure
    case OpenAIChat(_, _, _) => OpenAI
  }

  /** The decision `get_insight` takes before any network traffic: the
      branch is chosen by the provider name alone; inside it, a missing SDK
      or an unset or empty credential gives that branch's sentence, and
      otherwise the branch's one request is built around `text`. */
  function Plan(provider: string, sdks: Sdks, creds: Credentials, text: string): (d: Dispatch)
    ensures d.NotConfigured? <==> !Ready(BackendOf(provider), sdks, creds)
    ensures d.NotConfigured? ==> d.sentinel == SentinelOf(BackendOf(provider))
    ensures d.Call? ==> BackendOfCall(d.call) == BackendOf(provider)
    ensures d.Call? ==> SingleUserMessage(d.call) && PromptOf(d.call) == text
  {
    var user := [Message("user", text)];
    if provider == "google" then
      if !sdks.genai || !Truthy(creds.googleApiKey) then NotConfigured(GoogleSentinel)
      else Call(GeminiGenerate(creds.googleApiKey.value, GeminiModel, text))
    else if provider == "deepseek" then
      if !sdks.deepseek || !Truthy(creds.deepseekApiKey) then NotConfigured(DeepSeekSentinel)
      else Call(DeepSeekChat(creds.deepseekApiKey.value, DeepSeekModel, user))
    else if provider == "azure" then
      if !sdks.openai || !Truthy(creds.azureKey) || !Truthy(creds.azureEndpoint) || !Truthy(creds.azureDeployment) then
        NotConfigured(AzureSentinel)
      else
        Call(AzureChat(creds.azureKey.value, creds.azureEndpoint.value, AzureApiVersion, creds.azureDeployment.value, user))
    else
      if !sdks.openai || !Truthy(creds.openaiApiKey) then NotConfigured(OpenAISentinel)
      else Call(OpenAIChat(creds.openaiApiKey.value, OpenAIModel, user))
  }

  /** `get_insight(text)`: the sentence when not configured, otherwise
      whatever the one SDK call returns or raises. No exception is caught. */
  function GetInsight(cfg: Config, text: string, oracle: ProviderCall -> Outcome): (r: Outcome)
    ensures Plan(cfg.provider, cfg.sdks, cfg.creds, text).NotConfigured? ==>
      r == Returned(Str(SentinelOf(BackendOf(cfg.provider))))
    ensures Plan(cfg.provider, cfg.sdks, cfg.creds, text).Call? ==>
      r == oracle(Plan(cfg.provider, cfg.sdks, cfg.creds, text).call)
  {
    match Plan(cfg.provider, cfg.sdks, cfg.creds, text)
    case NotConfigured(s) => Returned(Str(s))
    case Call(c) => oracle(c)
  }

  /** Every provider name other than "google", "deepseek" and "azure" --
      including the empty string -- behaves exactly like "openai". */
  lemma UnknownProviderIsOpenAI(p: string, sdks: Sdks, creds: Credentials, text: string)
    requires p != "google" && p != "deepseek" && p != "azure"
    ensures Plan(p, sdks, creds, text) == Plan(DefaultProvider, sdks, creds, text)
  {
  }

  /** A branch reads only its own SDK flag and credentials: changing any
      other credential changes nothing. */
  lemma PlanReadsOnlyItsCredentials(p: string, sdks: Sdks, c1: Credentials, c2: Credentials, text: string)
    requires SameCredentialsFor(BackendOf(p), c1, c2)
    ensures Plan(p, sdks, c1, text) == Plan(p, sdks, c2, text)
  {
  }

  /** The exact request of each configured branch. */
  lemma ConfiguredRequests(p: string, sdks: Sdks, creds: Credentials, text: string)
    requires Ready(BackendOf(p), sdks, creds)
    ensures BackendOf(p) == Google ==>
      Plan(p, sdks, creds, text) == Call(GeminiGenerate(creds.googleApiKey.value, "gemini-1.5-pro", text))
    ensures BackendOf(p) == DeepSeek ==>
      Plan(p, sdks, creds, text) == Call(DeepSeekChat(creds.deepseekApiKey.value, "deepseek-chat", [Message("user", text)]))
    ensures BackendOf(p) == Azure ==>
      Plan(p, sdks, creds, text)
        == Call(AzureChat(creds.azureKey.value, creds.azureEndpoint.value, "2023-05-15", creds.azureDeployment.value, [Message("user", text)]))
    ensures BackendOf(p) == OpenAI ==>
      Plan(p, sdks, creds, text) == Call(OpenAIChat(creds.openaiApiKey.value, "gpt-3.5-turbo", [Message("user", text)]))
  {
  }

  /** A failing SDK call propagates out of `get_insight` unchanged. */
  lemma CallFailurePropagates(cfg: Config, text: string, oracle: ProviderCall -> Outcome)
    requires Ready(BackendOf(cfg.provider), cfg.sdks, cfg.creds)
    requires oracle(Plan(cfg.provider, cfg.sdks, cfg.creds, text).call) == Raised
    ensures GetInsight(cfg, text, oracle) == Raised
  {
  }

  /** With the backend unconfigured nothing is called and nothing raises,
      whatever the oracle would have done. */
  lemma NotConfiguredNeverCalls(cfg: Config, text: string, o1: ProviderCall -> Outcome, o2: ProviderCall -> Outcome)
    requires !Ready(BackendOf(cfg.provider), cfg.sdks, cfg.creds)
    ensures GetInsight(cfg, text, o1) == GetInsight(cfg, text, o2)
    ensures GetInsight(cfg, text, o1).Returned? && GetInsight(cfg, text, o1).value.Str?
    ensures GetInsight(cfg, text, o1).value.text != ""
  {
  }
}
