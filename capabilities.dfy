/**
 * The capability registry: which optional features are switched on, so
 * that the application can run without a language model.
 */
module Capabilities {
  import Seqs

  datatype FeatureId =
    | LlmChat | LlmGuidedBrowsing | LlmFormDetection | LlmContentExtraction
    | BrowserAutomation | ManualScanning | EncryptedVault | Scheduling
    | Notifications | LocalDiscovery | NetworkTelemetry | Plugins

  function DisplayName(f: FeatureId): string {
    match f
    case LlmChat => "LLM Chat Interface"
    case LlmGuidedBrowsing => "LLM-Guided Browsing"
    case LlmFormDetection => "LLM Form Detection"
    case LlmContentExtraction => "LLM Content Extraction"
    case BrowserAutomation => "Browser Automation"
    case ManualScanning => "Manual Scanning"
    case EncryptedVault => "Encrypted Vault"
    case Scheduling => "Background Scheduling"
    case Notifications => "Desktop Notifications"
    case LocalDiscovery => "Local PII Discovery"
    case NetworkTelemetry => "Network Telemetry"
    case Plugins => "Plugin System"
  }

  /** Two features never share a display name. */
  lemma DisplayNamesDistinct(f: FeatureId, g: FeatureId)
    ensures DisplayName(f) == DisplayName(g) ==> f == g
  {
  }

  /** `llm_features`: the four features that need a language model. */
  const LLM_FEATURES: seq<FeatureId> := [LlmChat, LlmGuidedBrowsing, LlmFormDetection, LlmContentExtraction]

  /** The language-model features, as a set. */
  function LlmSet(): set<FeatureId> {
    {LlmChat, LlmGuidedBrowsing, LlmFormDetection, LlmContentExtraction}
  }

  /** `requires_llm`: membership in the list of language-model features. */
  function RequiresLlm(f: FeatureId): (r: bool)
    ensures r <==> f in LlmSet()
  {
    f in LLM_FEATURES
  }

  /** `all_features`: every feature once. */
  function AllFeatures(): (r: seq<FeatureId>)
    ensures |r| == 12 && Seqs.Distinct(r)
  {
    [LlmChat, LlmGuidedBrowsing, LlmFormDetection, LlmContentExtraction,
     BrowserAutomation, ManualScanning, EncryptedVault, Scheduling,
     Notifications, LocalDiscovery, NetworkTelemetry, Plugins]
  }

  /** `all_features` names every feature. */
  lemma AllFeaturesListed(f: FeatureId)
    ensures f in AllFeatures()
  {
  }

  /** Whether some feature of `fs` is in `enabled`, scanning `fs` in order. */
  function AnyEnabled(fs: seq<FeatureId>, enabled: set<FeatureId>): (r: bool)
    ensures r <==> exists f :: f in fs && f in enabled
  {
    if fs == [] then false
    else fs[0] in enabled || AnyEnabled(fs[1..], enabled)
  }

  /** Some listed language-model feature is enabled iff the enabled set meets the language-model set. */
  lemma LlmListMeetsSet(enabled: set<FeatureId>)
    ensures (exists f :: f in LLM_FEATURES && f in enabled) <==> enabled * LlmSet() != {}
  {
    if enabled * LlmSet() != {} {
      var g :| g in enabled * LlmSet();
      assert g in LLM_FEATURES;
    }
    if exists f :: f in LLM_FEATURES && f in enabled {
      var f :| f in LLM_FEATURES && f in enabled;
      assert f in enabled * LlmSet();
    }
  }

  class CapabilityRegistry {
    var enabled: set<FeatureId>

    /** `CapabilityRegistry::new`: only manual scanning and the vault, no language-model feature. */
    constructor()
      ensures enabled == {ManualScanning, EncryptedVault}
      ensures !HasLlmCapabilities()
    {
      enabled := {ManualScanning, EncryptedVault};
    }

    /** `is_feature_available`. */
    predicate IsFeatureAvailable(f: FeatureId)
      reads this
    {
      f in enabled
    }

    /** `enable_feature`: `f` becomes available, nothing else changes. */
    method EnableFeature(f: FeatureId)
      modifies this
      ensures enabled == old(enabled) + {f}
      ensures IsFeatureAvailable(f)
    {
      enabled := enabled + {f};
    }

    /** `disable_feature`: `f` becomes unavailable, nothing else changes. */
    method DisableFeature(f: FeatureId)
      modifies this
      ensures enabled == old(enabled) - {f}
      ensures !IsFeatureAvailable(f)
    {
      enabled := enabled - {f};
    }

    /** `enabled_features`: each enabled feature once, in an order left open (the source walks a hash set). */
    method EnabledFeatures() returns (r: seq<FeatureId>)
      ensures forall f :: f in r <==> f in enabled
      ensures Seqs.Distinct(r)
    {
      r := [];
      var rest := enabled;
      while rest != {}
        invariant rest <= enabled
        invariant forall f :: f in r <==> f in enabled && f !in rest
        invariant Seqs.Distinct(r)
        decreases |rest|
      {
        var f :| f in rest;
        r := r + [f];
        rest := rest - {f};
      }
    }

    /** `has_llm_capabilities`: some language-model feature is enabled. */
    predicate HasLlmCapabilities()
      reads this
      ensures HasLlmCapabilities() <==> enabled * LlmSet() != {}
    {
      LlmListMeetsSet(enabled);
      AnyEnabled(LLM_FEATURES, enabled)
    }

    /** `enable_llm_features`: the four language-model features are added, nothing else changes. */
    method EnableLlmFeatures()
      modifies this
      ensures enabled == old(enabled) + LlmSet()
      ensures HasLlmCapabilities()
    {
      var i := 0;
      while i < |LLM_FEATURES|
        invariant 0 <= i <= |LLM_FEATURES|
        invariant enabled == old(enabled) + set f | f in LLM_FEATURES[..i]
      {
        EnableFeature(LLM_FEATURES[i]);
        assert LLM_FEATURES[..i + 1] == LLM_FEATURES[..i] + [LLM_FEATURES[i]];
        i := i + 1;
      }
      assert LLM_FEATURES[..i] == LLM_FEATURES;
      assert LlmChat in enabled * LlmSet();
    }

    /** `disable_llm_features`: the four language-model features are removed, nothing else changes. */
    method DisableLlmFeatures()
      modifies this
      ensures enabled == old(enabled) - LlmSet()
      ensures !HasLlmCapabilities()
    {
      var i := 0;
      while i < |LLM_FEATURES|
        invariant 0 <= i <= |LLM_FEATURES|
        invariant enabled == old(enabled) - set f | f in LLM_FEATURES[..i]
      {
        DisableFeature(LLM_FEATURES[i]);
        assert LLM_FEATURES[..i + 1] == LLM_FEATURES[..i] + [LLM_FEATURES[i]];
        i := i + 1;
      }
      assert LLM_FEATURES[..i] == LLM_FEATURES;
    }
  }

  /**
   * A new registry has no language-model capability; enabling the
   * language-model features gives it, and disabling them takes it away while
   * the default features stay.
   */
  method LlmToggle() returns (before: bool, enabledAfter: bool, disabledAfter: bool, defaultsKept: bool)
    ensures !before && enabledAfter && !disabledAfter && defaultsKept
  {
    var registry := new CapabilityRegistry();
    before := registry.HasLlmCapabilities();
    registry.EnableLlmFeatures();
    enabledAfter := registry.HasLlmCapabilities() && registry.IsFeatureAvailable(LlmChat);
    registry.DisableLlmFeatures();
    disabledAfter := registry.HasLlmCapabilities();
    defaultsKept := registry.IsFeatureAvailable(ManualScanning) && registry.IsFeatureAvailable(EncryptedVault);
  }
}
