/** Providers, routes and the static tier chains of the model policy. */
module Routes {
  import opened Common

  datatype Provider = DeepSeek | Codex | Claude

  datatype TaskClass =
    | BulkCode
    | ComplexBackend
    | BoundedRepair
    | Orchestration
    | LightReview
    | SpecialistReview
    | CriticalReview
    | IndependentReview

  datatype Route = Route(
    provider: Provider,
    requestedModelId: string,
    role: string,
    mode: Option<string>,
    effort: Option<string>)

  function ProviderName(p: Provider): string {
    match p
    case DeepSeek => "deepseek"
    case Codex => "codex"
    case Claude => "claude"
  }

  /** The "provider:model" text that identifies a tier in availability sets and artifacts. */
  function Key(providerId: string, modelId: string): string {
    providerId + ":" + modelId
  }

  function RouteKey(r: Route): string {
    Key(ProviderName(r.provider), r.requestedModelId)
  }

  function Thinking(p: Provider, model: string, role: string): Route {
    Route(p, model, role, Some("thinking"), None)
  }

  function NonThinking(p: Provider, model: string, role: string): Route {
    Route(p, model, role, Some("non-thinking"), None)
  }

  function Effort(p: Provider, model: string, role: string, effort: string): Route {
    Route(p, model, role, None, Some(effort))
  }

  const PROGRAMMING_CHAIN: seq<Route> := [
    NonThinking(DeepSeek, "deepseek-v4-pro", "primary-executor"),
    NonThinking(DeepSeek, "deepseek-v4-flash", "primary-executor-retry"),
    Effort(Codex, "gpt-5.5", "technical-fallback", "high"),
    Effort(Claude, "claude-sonnet-4-6", "technical-fallback-final", "high")
  ]

  function ModelRoutes(taskClass: TaskClass): seq<Route> {
    match taskClass
    case BulkCode => PROGRAMMING_CHAIN
    case ComplexBackend => PROGRAMMING_CHAIN
    case BoundedRepair => PROGRAMMING_CHAIN
    case Orchestration => [
      Thinking(DeepSeek, "deepseek-v4-pro", "orchestrator"),
      NonThinking(DeepSeek, "deepseek-v4-flash", "orchestrator-retry"),
      Effort(Codex, "gpt-5.5", "orchestrator-fallback", "high"),
      Effort(Codex, "gpt-5.6", "orchestrator-fallback-retry", "high"),
      Effort(Claude, "claude-sonnet-5", "orchestrator-claude-fallback", "high"),
      Effort(Claude, "claude-opus-5", "orchestrator-final-fallback", "xhigh")]
    case LightReview => [
      Effort(Claude, "claude-haiku-4-5-20251001", "reviewer", "medium"),
      Effort(Claude, "claude-sonnet-4-6", "reviewer-fallback", "high")]
    case SpecialistReview => [
      Effort(Claude, "claude-sonnet-4-6", "specialist-reviewer", "high"),
      Effort(Claude, "claude-opus-4-8", "review-escalation", "xhigh")]
    case CriticalReview => [
      Effort(Claude, "claude-opus-4-8", "adversarial-reviewer", "xhigh"),
      Effort(Claude, "claude-opus-5", "exceptional-escalation", "high"),
      Effort(Codex, "gpt-5.5", "hard-fallback-reviewer", "high")]
    case IndependentReview => [
      Effort(Claude, "claude-sonnet-4-6", "independent-reviewer", "high"),
      NonThinking(DeepSeek, "deepseek-v4-pro", "independent-review-fallback")]
  }
}
