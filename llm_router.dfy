/**
 * The language-model router: which registered provider a request goes to
 * under each routing preference, the text of a request that is run through
 * the PII filter, and the request a cloud provider receives in its place.
 *
 * A provider is known by its id and its capabilities. What the PII
 * patterns match in a text is the function `find`, as in `PiiFilter`.
 */
module LlmRouting {
  import opened Wrappers
  import opened Text
  import Seqs
  import opened LlmErrors
  import opened LlmProvider
  import PiiFilter

  datatype TaskType = General | PiiSensitive | BrowserAutomation | EmailGeneration | NaturalLanguage

  datatype RoutingPreference =
    | LocalOnly
    | PreferLocal(cloudAllowedTasks: seq<TaskType>)
    | BestAvailable

  /** `RoutingPreference::default`: local first, the cloud allowed for general tasks. */
  function DefaultPreference(): (p: RoutingPreference)
    ensures p.PreferLocal? && General in p.cloudAllowedTasks
  {
    PreferLocal([General])
  }

  /** A registered provider: its `provider_id` and its `capabilities`. */
  datatype Provider = Provider(id: string, caps: ProviderCapabilities)

  function Capabilities(ps: seq<Provider>): (r: seq<ProviderCapabilities>)
    ensures |r| == |ps| && forall k :: 0 <= k < |ps| ==> r[k] == ps[k].caps
  {
    Seqs.Map(ps, (p: Provider) => p.caps)
  }

  // ---------------------------------------------------------------------
  // Selection

  /** `iter().find(...)` on locality: the first provider that is local (or cloud), if any. */
  function FirstWhere(caps: seq<ProviderCapabilities>, local: bool): (r: Option<nat>)
    ensures r.Some? ==>
      r.value < |caps| && caps[r.value].isLocal == local
      && forall j :: 0 <= j < r.value ==> caps[j].isLocal != local
    ensures r.None? ==> forall j :: 0 <= j < |caps| ==> caps[j].isLocal != local
  {
    if caps == [] then None
    else if caps[0].isLocal == local then Some(0)
    else
      match FirstWhere(caps[1..], local)
      case Some(i) => Some(i + 1)
      case None => None
  }

  /**
   * The order of `max_by_key` in `BestAvailable`: local above cloud, then a
   * larger context window, then a lower cost tier.
   */
  predicate KeyLe(a: ProviderCapabilities, b: ProviderCapabilities) {
    || (!a.isLocal && b.isLocal)
    || (a.isLocal == b.isLocal
        && (a.maxContextTokens < b.maxContextTokens
            || (a.maxContextTokens == b.maxContextTokens && a.costTier >= b.costTier)))
  }

  /**
   * `max_by_key`: a provider no other provider is above, and the last such
   * one, since each later provider replaces the best so far unless it is
   * strictly below it.
   */
  function LastBest(caps: seq<ProviderCapabilities>): (r: nat)
    requires caps != []
    ensures r < |caps|
    ensures forall j :: 0 <= j < |caps| ==> KeyLe(caps[j], caps[r])
    ensures forall j :: r < j < |caps| ==> !KeyLe(caps[r], caps[j])
    decreases |caps|
  {
    if |caps| == 1 then 0
    else
      var i := LastBest(caps[..|caps| - 1]);
      if KeyLe(caps[i], caps[|caps| - 1]) then |caps| - 1 else i
  }

  /** `select_provider`: the index of the chosen provider, or `NoProviderAvailable`. */
  function Select(caps: seq<ProviderCapabilities>, pref: RoutingPreference): (r: Result<nat, LlmError>)
    ensures r.Ok? ==> r.value < |caps|
    ensures r.Err? ==> r.error == NoProviderAvailable
  {
    if caps == [] then Err(NoProviderAvailable)
    else
      match pref
      case LocalOnly =>
        (match FirstWhere(caps, true) case Some(i) => Ok(i) case None => Err(NoProviderAvailable))
      case PreferLocal(tasks) =>
        (match FirstWhere(caps, true)
         case Some(i) => Ok(i)
         case None =>
           if General in tasks then
             (match FirstWhere(caps, false) case Some(i) => Ok(i) case None => Err(NoProviderAvailable))
           else Err(NoProviderAvailable))
      case BestAvailable => Ok(LastBest(caps))
  }

  /** With no provider registered, every preference fails. */
  lemma NoProviders(pref: RoutingPreference)
    ensures Select([], pref) == Err(NoProviderAvailable)
  {
  }

  /**
   * `LocalOnly` succeeds exactly when some provider is local, and then
   * picks the first local one in registration order.
   */
  lemma LocalOnlySelection(caps: seq<ProviderCapabilities>)
    ensures Select(caps, LocalOnly).Ok? <==> exists j :: 0 <= j < |caps| && caps[j].isLocal
    ensures Select(caps, LocalOnly).Ok? ==>
      var i := Select(caps, LocalOnly).value;
      caps[i].isLocal && forall j :: 0 <= j < i ==> !caps[j].isLocal
  {
  }

  /**
   * `PreferLocal` picks as `LocalOnly` does when some provider is local;
   * otherwise it falls back to the first provider, a cloud one, exactly
   * when general tasks may go to the cloud.
   */
  lemma PreferLocalSelection(caps: seq<ProviderCapabilities>, tasks: seq<TaskType>)
    ensures (exists j :: 0 <= j < |caps| && caps[j].isLocal) ==>
      Select(caps, PreferLocal(tasks)) == Select(caps, LocalOnly)
    ensures (forall j :: 0 <= j < |caps| ==> !caps[j].isLocal) ==>
      && (Select(caps, PreferLocal(tasks)).Ok? <==> caps != [] && General in tasks)
      && (Select(caps, PreferLocal(tasks)).Ok? ==> Select(caps, PreferLocal(tasks)).value == 0)
  {
  }

  /**
   * `BestAvailable` never fails on a non-empty list; it picks a provider no
   * other is above and the last of those, and a local one whenever one is
   * registered.
   */
  lemma BestAvailableSelection(caps: seq<ProviderCapabilities>)
    requires caps != []
    ensures Select(caps, BestAvailable).Ok?
    ensures var i := Select(caps, BestAvailable).value;
      && (forall j :: 0 <= j < |caps| ==> KeyLe(caps[j], caps[i]))
      && (forall j :: i < j < |caps| ==> !KeyLe(caps[i], caps[j]))
      && ((exists j :: 0 <= j < |caps| && caps[j].isLocal) ==> caps[i].isLocal)
  {
    var i := LastBest(caps);
    if exists j :: 0 <= j < |caps| && caps[j].isLocal {
      var j :| 0 <= j < |caps| && caps[j].isLocal;
      assert KeyLe(caps[j], caps[i]);
    }
  }

  /** Providers alike but for the cost tier: `BestAvailable` takes the cheaper one. */
  lemma CheaperWins(a: ProviderCapabilities, b: ProviderCapabilities)
    requires a.isLocal == b.isLocal && a.maxContextTokens == b.maxContextTokens && a.costTier < b.costTier
    ensures Select([a, b], BestAvailable) == Ok(0) && Select([b, a], BestAvailable) == Ok(1)
  {
    assert [a, b][..1] == [a] && [b, a][..1] == [b];
  }

  // ---------------------------------------------------------------------
  // The text that is filtered, and the request a cloud provider receives

  function SystemPart(req: CompletionRequest): seq<string> {
    match req.systemPrompt
    case Some(s) => [s]
    case None => []
  }

  function Contents(ms: seq<Message>): (r: seq<string>)
    ensures |r| == |ms| && forall k :: 0 <= k < |ms| ==> r[k] == ms[k].content
  {
    Seqs.Map(ms, (m: Message) => m.content)
  }

  /** The text of a request: the system prompt, if any, then every message, one per line. */
  function RequestText(req: CompletionRequest): string {
    Join(SystemPart(req) + Contents(req.messages), "\n")
  }

  /** `extract_text`: the parts collected one by one, then joined. */
  method ExtractText(req: CompletionRequest) returns (text: string)
    ensures text == RequestText(req)
  {
    var parts := SystemPart(req);
    for i := 0 to |req.messages|
      invariant parts == SystemPart(req) + Contents(req.messages[..i])
    {
      assert Contents(req.messages[..i + 1]) == Contents(req.messages[..i]) + [req.messages[i].content];
      parts := parts + [req.messages[i].content];
    }
    assert req.messages[..|req.messages|] == req.messages;
    text := Join(parts, "\n");
  }

  /** A plain request's text is its one message; a system prompt comes first, on a line of its own. */
  lemma RequestTextExamples(content: string, prompt: string)
    ensures RequestText(NewRequest(content)) == content
    ensures RequestText(WithSystemPrompt(NewRequest(content), prompt)) == prompt + "\n" + content
  {
    assert Contents([UserMessage(content)]) == [content];
    assert [] + [content] == [content];
    assert [prompt] + [content] == [prompt, content];
    assert [prompt, content][1..] == [content];
  }

  /** The request with the content of its last message replaced; a request without messages is kept. */
  function ReplaceLast(req: CompletionRequest, text: string): (r: CompletionRequest)
    ensures |r.messages| == |req.messages|
    ensures forall k :: 0 <= k < |req.messages| - 1 ==> r.messages[k] == req.messages[k]
    ensures req.messages != [] ==>
      r.messages[|r.messages| - 1] == req.messages[|req.messages| - 1].(content := text)
    ensures r.(messages := req.messages) == req
  {
    if req.messages == [] then req
    else
      var n := |req.messages|;
      req.(messages := req.messages[..n - 1] + [req.messages[n - 1].(content := text)])
  }

  /** What `filter` gives for a text, as its contract states it. */
  function FilterOutcome(strategy: PiiFilter.FilterStrategy, text: string, find: PiiFilter.PiiType -> Option<PiiFilter.Span>)
    : Result<PiiFilter.FilterResult, LlmError>
    requires PiiFilter.Fits(text, find) && PiiFilter.MatchesApart(find)
  {
    var ds := PiiFilter.Detections(PiiFilter.DefaultPatterns, text, find);
    PiiFilter.SortedDetectionsDisjoint(text, find);
    if ds == [] then Ok(PiiFilter.FilterResult(text, [], None))
    else
      match strategy
      case Block => Err(PiiBlocked(PiiFilter.BlockDetails(ds)))
      case Redact => Ok(PiiFilter.FilterResult(PiiFilter.Redacted(text, ds), ds, None))
      case Tokenize =>
        Ok(PiiFilter.FilterResult(PiiFilter.Tokenized(text, ds), ds,
                                  Some(PiiFilter.TokenMapOf(PiiFilter.SortByStartDesc(ds)))))
  }

  /**
   * The filter's precondition, demanded only where the filter runs: when
   * the chosen provider is a cloud one. A request routed to a local
   * provider is never filtered, whatever its matches.
   */
  predicate FilterableIfCloud(caps: seq<ProviderCapabilities>, pref: RoutingPreference, req: CompletionRequest,
                              find: PiiFilter.PiiType -> Option<PiiFilter.Span>)
  {
    Select(caps, pref).Ok? && !caps[Select(caps, pref).value].isLocal
    ==> PiiFilter.Fits(RequestText(req), find) && PiiFilter.MatchesApart(find)
  }

  /** Where `complete` sends a request: the provider, the request it receives, and the token map to undo. */
  datatype Routed = Routed(provider: nat, request: CompletionRequest, tokenMap: Option<map<string, string>>)

  /**
   * The routing step of `complete` and `stream`: a local provider receives
   * the request as it is; a cloud provider receives it with the last
   * message replaced by the filtered text of the whole request.
   */
  function Dispatch(caps: seq<ProviderCapabilities>, pref: RoutingPreference, strategy: PiiFilter.FilterStrategy,
                    req: CompletionRequest, find: PiiFilter.PiiType -> Option<PiiFilter.Span>): (r: Result<Routed, LlmError>)
    requires FilterableIfCloud(caps, pref, req, find)
    ensures Select(caps, pref).Err? ==> r == Err(NoProviderAvailable)
    ensures r.Ok? ==> Select(caps, pref) == Ok(r.value.provider)
  {
    var i :- Select(caps, pref);
    if caps[i].isLocal then Ok(Routed(i, req, None))
    else
      var fr :- FilterOutcome(strategy, RequestText(req), find);
      Ok(Routed(i, ReplaceLast(req, fr.filteredText), fr.tokenMap))
  }

  /** A local provider receives the request unchanged, and nothing is tokenised. */
  lemma LocalGetsRequestUnchanged(caps: seq<ProviderCapabilities>, pref: RoutingPreference,
                                  strategy: PiiFilter.FilterStrategy, req: CompletionRequest,
                                  find: PiiFilter.PiiType -> Option<PiiFilter.Span>)
    requires Select(caps, pref).Ok? && caps[Select(caps, pref).value].isLocal
    ensures Dispatch(caps, pref, strategy, req, find) == Ok(Routed(Select(caps, pref).value, req, None))
  {
  }

  /**
   * A cloud provider's request differs from the caller's in the last
   * message alone: its content is the filtered text of the whole request,
   * while the system prompt and the earlier messages go out as they were.
   */
  lemma CloudGetsLastMessageFiltered(caps: seq<ProviderCapabilities>, pref: RoutingPreference,
                                     strategy: PiiFilter.FilterStrategy, req: CompletionRequest,
                                     find: PiiFilter.PiiType -> Option<PiiFilter.Span>)
    requires PiiFilter.Fits(RequestText(req), find) && PiiFilter.MatchesApart(find)
    requires Select(caps, pref).Ok? && !caps[Select(caps, pref).value].isLocal
    requires FilterOutcome(strategy, RequestText(req), find).Ok?
    ensures var fr := FilterOutcome(strategy, RequestText(req), find).value;
      var sent := Dispatch(caps, pref, strategy, req, find);
      && sent.Ok?
      && sent.value.tokenMap == fr.tokenMap
      && sent.value.request.systemPrompt == req.systemPrompt
      && |sent.value.request.messages| == |req.messages|
      && (forall k :: 0 <= k < |req.messages| - 1 ==> sent.value.request.messages[k] == req.messages[k])
      && (req.messages != [] ==>
            sent.value.request.messages[|req.messages| - 1].content == fr.filteredText)
  {
  }

  /** Under the `Block` strategy a request bound for the cloud with PII in it is refused. */
  lemma BlockRefusesCloud(caps: seq<ProviderCapabilities>, pref: RoutingPreference, req: CompletionRequest,
                          find: PiiFilter.PiiType -> Option<PiiFilter.Span>)
    requires PiiFilter.Fits(RequestText(req), find) && PiiFilter.MatchesApart(find)
    requires Select(caps, pref).Ok? && !caps[Select(caps, pref).value].isLocal
    requires PiiFilter.Detections(PiiFilter.DefaultPatterns, RequestText(req), find) != []
    ensures Dispatch(caps, pref, PiiFilter.Block, req, find).Err?
    ensures Dispatch(caps, pref, PiiFilter.Block, req, find).error.PiiBlocked?
  {
  }

  /** No detector matches: the filter gives the text back unchanged. */
  lemma NoPiiUnfiltered(strategy: PiiFilter.FilterStrategy, text: string, find: PiiFilter.PiiType -> Option<PiiFilter.Span>)
    requires forall t :: find(t).None?
    ensures PiiFilter.Fits(text, find)
    ensures PiiFilter.MatchesApart(find)
    ensures FilterOutcome(strategy, text, find) == Ok(PiiFilter.FilterResult(text, [], None))
  {
  }

  /**
   * A prompt and one message bound for the cloud, with nothing to filter:
   * the provider still gets the system prompt, and the message now reads
   * the prompt and the message on two lines.
   */
  lemma CloudRequestRepeatsPrompt(caps: seq<ProviderCapabilities>, pref: RoutingPreference,
                                  strategy: PiiFilter.FilterStrategy, content: string, prompt: string,
                                  find: PiiFilter.PiiType -> Option<PiiFilter.Span>)
    requires forall t :: find(t).None?
    requires Select(caps, pref).Ok? && !caps[Select(caps, pref).value].isLocal
    ensures var req := WithSystemPrompt(NewRequest(content), prompt);
      && PiiFilter.Fits(RequestText(req), find) && PiiFilter.MatchesApart(find)
      && Dispatch(caps, pref, strategy, req, find).Ok?
      && Dispatch(caps, pref, strategy, req, find).value.request.systemPrompt == Some(prompt)
      && Dispatch(caps, pref, strategy, req, find).value.request.messages == [UserMessage(prompt + "\n" + content)]
  {
    var req := WithSystemPrompt(NewRequest(content), prompt);
    RequestTextExamples(content, prompt);
    NoPiiUnfiltered(strategy, RequestText(req), find);
  }

  // ---------------------------------------------------------------------
  // The router

  class LlmRouter {
    var providers: seq<Provider>
    var strategy: PiiFilter.FilterStrategy
    var preference: RoutingPreference

    /** `LlmRouter::new`: no providers, the tokenising filter. */
    constructor(preference: RoutingPreference)
      ensures this.providers == [] && this.strategy == PiiFilter.Tokenize && this.preference == preference
    {
      this.providers := [];
      this.strategy := PiiFilter.Tokenize;
      this.preference := preference;
    }

    /** `add_provider`: registered last. */
    method AddProvider(p: Provider)
      modifies this
      ensures providers == old(providers) + [p]
      ensures strategy == old(strategy) && preference == old(preference)
    {
      providers := providers + [p];
    }

    /** `set_filter_strategy`. */
    method SetFilterStrategy(s: PiiFilter.FilterStrategy)
      modifies this
      ensures strategy == s && providers == old(providers) && preference == old(preference)
    {
      strategy := s;
    }

    /** `set_preference`. */
    method SetPreference(p: RoutingPreference)
      modifies this
      ensures preference == p && providers == old(providers) && strategy == old(strategy)
    {
      preference := p;
    }

    /** `all_capabilities`: each provider's id and capabilities, in registration order. */
    function AllCapabilities(): (r: seq<(string, ProviderCapabilities)>)
      reads this
      ensures |r| == |providers| && forall k :: 0 <= k < |providers| ==> r[k] == (providers[k].id, providers[k].caps)
    {
      Seqs.Map(providers, (p: Provider) => (p.id, p.caps))
    }

    /**
     * The routing step of `complete`: the provider chosen and the request
     * it receives, the text for a cloud provider extracted and filtered.
     */
    method Route(req: CompletionRequest, find: PiiFilter.PiiType -> Option<PiiFilter.Span>)
      returns (r: Result<Routed, LlmError>)
      requires FilterableIfCloud(Capabilities(providers), preference, req, find)
      ensures r == Dispatch(Capabilities(providers), preference, strategy, req, find)
    {
      var i :- Select(Capabilities(providers), preference);
      if providers[i].caps.isLocal {
        return Ok(Routed(i, req, None));
      }
      var text := ExtractText(req);
      var fr :- PiiFilter.Filter(strategy, text, find);
      r := Ok(Routed(i, ReplaceLast(req, fr.filteredText), fr.tokenMap));
    }
  }

  /** A mock provider as the router's tests build it: 4096 tokens, cost tier 0 when local and 1 otherwise. */
  function Mock(id: string, isLocal: bool): Provider {
    Provider(id, ProviderCapabilities(4096, isLocal, false, false, false, id, if isLocal then 0 else 1))
  }

  /**
   * The router's test scenarios: a cloud provider registered before a
   * local one, a plain request, no PII; each preference that allows it
   * routes to the local provider, which receives the request unchanged.
   */
  method RoutingScenarios(find: PiiFilter.PiiType -> Option<PiiFilter.Span>)
    returns (preferLocal: Result<Routed, LlmError>, best: Result<Routed, LlmError>, empty: Result<Routed, LlmError>)
    requires forall t :: find(t).None?
    ensures preferLocal == Ok(Routed(1, NewRequest("Hello"), None))
    ensures best == Ok(Routed(1, NewRequest("Hello"), None))
    ensures empty == Err(NoProviderAvailable)
  {
    var req := NewRequest("Hello");
    NoPiiUnfiltered(PiiFilter.Tokenize, RequestText(req), find);
    var router := new LlmRouter(DefaultPreference());
    router.AddProvider(Mock("anthropic", false));
    router.AddProvider(Mock("ollama", true));
    assert Capabilities(router.providers)[1].isLocal;
    preferLocal := router.Route(req, find);
    router.SetPreference(BestAvailable);
    assert Capabilities(router.providers) == [Mock("anthropic", false).caps, Mock("ollama", true).caps];
    best := router.Route(req, find);
    var none := new LlmRouter(LocalOnly);
    empty := none.Route(req, find);
  }
}
