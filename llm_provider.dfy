/**
 * The request and response values every language-model provider speaks:
 * messages with roles, completion requests and their builders, token usage,
 * and what a provider says it can do.
 *
 * A temperature is an `f32` the model never reasons about: it is kept as
 * its bit pattern.
 */
module LlmProvider {
  import opened Wrappers
  import opened Ints

  datatype Role = System | User | Assistant

  datatype Message = Message(role: Role, content: string)

  /** `Message::user`. */
  function UserMessage(content: string): (m: Message)
    ensures m.role == User && m.content == content
  {
    Message(User, content)
  }

  /** `Message::assistant`. */
  function AssistantMessage(content: string): (m: Message)
    ensures m.role == Assistant && m.content == content
  {
    Message(Assistant, content)
  }

  /** `Message::system`. */
  function SystemMessage(content: string): (m: Message)
    ensures m.role == System && m.content == content
  {
    Message(System, content)
  }

  /** The three constructors give three different roles, so a message's role says which built it. */
  lemma ConstructorsDistinct(a: string, b: string, c: string)
    ensures UserMessage(a).role != AssistantMessage(b).role
    ensures UserMessage(a).role != SystemMessage(c).role
    ensures AssistantMessage(b).role != SystemMessage(c).role
  {
  }

  /** An `f32`, kept as its bits. */
  datatype F32 = F32(bits: uint32)

  /** `ProviderCapabilities`. */
  datatype ProviderCapabilities = ProviderCapabilities(
    maxContextTokens: nat,
    isLocal: bool,
    supportsVision: bool,
    supportsToolUse: bool,
    supportsStructuredOutput: bool,
    modelName: string,
    costTier: uint8)

  /** `CompletionRequest`, without the provider-specific `extra` value (always `Null` here). */
  datatype CompletionRequest = CompletionRequest(
    messages: seq<Message>,
    maxTokens: Option<uint32>,
    temperature: Option<F32>,
    systemPrompt: Option<string>,
    stopSequences: seq<string>)

  /** `CompletionRequest::new`: one user message, no options, no stop sequences. */
  function NewRequest(content: string): (r: CompletionRequest)
    ensures r.messages == [UserMessage(content)]
    ensures r.maxTokens.None? && r.temperature.None? && r.systemPrompt.None? && r.stopSequences == []
  {
    CompletionRequest([UserMessage(content)], None, None, None, [])
  }

  /** `with_max_tokens`: sets the limit and nothing else. */
  function WithMaxTokens(req: CompletionRequest, maxTokens: uint32): (r: CompletionRequest)
    ensures r.maxTokens == Some(maxTokens)
    ensures r.messages == req.messages && r.temperature == req.temperature
    ensures r.systemPrompt == req.systemPrompt && r.stopSequences == req.stopSequences
  {
    req.(maxTokens := Some(maxTokens))
  }

  /** `with_temperature`: sets the temperature and nothing else. */
  function WithTemperature(req: CompletionRequest, temperature: F32): (r: CompletionRequest)
    ensures r.temperature == Some(temperature)
    ensures r.messages == req.messages && r.maxTokens == req.maxTokens
    ensures r.systemPrompt == req.systemPrompt && r.stopSequences == req.stopSequences
  {
    req.(temperature := Some(temperature))
  }

  /** `with_system_prompt`: sets the system prompt and nothing else. */
  function WithSystemPrompt(req: CompletionRequest, prompt: string): (r: CompletionRequest)
    ensures r.systemPrompt == Some(prompt)
    ensures r.messages == req.messages && r.maxTokens == req.maxTokens
    ensures r.temperature == req.temperature && r.stopSequences == req.stopSequences
  {
    req.(systemPrompt := Some(prompt))
  }

  /** `with_stop_sequence`: appends one stop sequence after the earlier ones. */
  function WithStopSequence(req: CompletionRequest, stop: string): (r: CompletionRequest)
    ensures |r.stopSequences| == |req.stopSequences| + 1
    ensures r.stopSequences[..|req.stopSequences|] == req.stopSequences && r.stopSequences[|req.stopSequences|] == stop
    ensures r.messages == req.messages && r.maxTokens == req.maxTokens
    ensures r.temperature == req.temperature && r.systemPrompt == req.systemPrompt
  {
    req.(stopSequences := req.stopSequences + [stop])
  }

  /** The three setters touch different fields, so their order does not matter. */
  lemma SettersCommute(req: CompletionRequest, n: uint32, t: F32, p: string)
    ensures WithSystemPrompt(WithTemperature(WithMaxTokens(req, n), t), p)
         == WithMaxTokens(WithTemperature(WithSystemPrompt(req, p), t), n)
  {
  }

  /** The builder chain of the request tests: the one message kept, each option set. */
  lemma BuilderChain(content: string, n: uint32, t: F32, p: string)
    ensures var r := WithSystemPrompt(WithTemperature(WithMaxTokens(NewRequest(content), n), t), p);
      r.messages == [Message(User, content)] && r.maxTokens == Some(n) && r.temperature == Some(t)
      && r.systemPrompt == Some(p) && r.stopSequences == []
  {
  }

  datatype Usage = Usage(inputTokens: uint32, outputTokens: uint32)

  datatype CompletionResponse = CompletionResponse(
    content: string,
    model: string,
    stopReason: Option<string>,
    usage: Option<Usage>)

  datatype StreamChunk = StreamChunk(delta: string, isFinal: bool, stopReason: Option<string>)

  /** `total_tokens`: the `u32` sum, wrapping as a release build does. */
  function TotalTokens(u: Usage): (total: uint32)
    ensures u.inputTokens + u.outputTokens < TWO_TO_THE_32 ==> total == u.inputTokens + u.outputTokens
    ensures u.inputTokens + u.outputTokens >= TWO_TO_THE_32 ==> total == u.inputTokens + u.outputTokens - TWO_TO_THE_32
  {
    (u.inputTokens + u.outputTokens) % TWO_TO_THE_32
  }
}
