/**
 * Permission presets: three nested bundles of permissions offered during
 * first-run setup, from manual-only to fully automated.
 */
module PermissionPresets {
  import opened Permissions
  import Seqs

  datatype Preset = Minimal | Balanced | Maximum

  function PresetName(preset: Preset): (r: string)
    ensures |r| > 0
  {
    match preset
    case Minimal => "Minimal"
    case Balanced => "Balanced"
    case Maximum => "Maximum"
  }

  /** The permissions a preset grants, in the order they are granted. */
  function PresetPermissions(preset: Preset): (r: seq<Permission>)
    ensures Seqs.Distinct(r)
  {
    match preset
    case Minimal => [ScanBrokers, SubmitRemovalForms]
    case Balanced => [
      ScanBrokers, SubmitRemovalForms,
      UseLlmLocal, LlmGuidedBrowsing,
      ScanFilesystem, ScanBrowserData, ScanEmails,
      AutoScheduleScans, BackgroundExecution]
    case Maximum => [
      ScanBrokers, SubmitRemovalForms, SendEmails, NetworkAccess,
      UseLlmLocal, UseLlmCloud, LlmGuidedBrowsing,
      ScanFilesystem, ScanBrowserData, ScanEmails,
      AutoScheduleScans, AutoSubmitRemovals, BackgroundExecution]
  }

  /** The permissions of a preset, as a set. */
  function Granted(preset: Preset): set<Permission> {
    set p | p in PresetPermissions(preset)
  }

  /** Minimal grants broker scanning and removal forms, nothing else. */
  lemma MinimalExactly()
    ensures Granted(Minimal) == {ScanBrokers, SubmitRemovalForms}
  {
  }

  /** Each preset grants everything the one below it does, and strictly more. */
  lemma PresetsNested()
    ensures Granted(Minimal) < Granted(Balanced) < Granted(Maximum)
    ensures |PresetPermissions(Minimal)| < |PresetPermissions(Balanced)| < |PresetPermissions(Maximum)|
  {
    assert UseLlmLocal in Granted(Balanced);
    assert UseLlmCloud in Granted(Maximum);
  }

  /** Maximum grants every permission. */
  lemma MaximumGrantsAll(p: Permission)
    ensures p in PresetPermissions(Maximum)
    ensures |PresetPermissions(Maximum)| == |ALL_PERMISSIONS|
  {
  }

  /**
   * Balanced keeps cloud models and unattended removal off; Minimal grants
   * no language-model permission at all.
   */
  lemma PresetExclusions()
    ensures UseLlmCloud !in PresetPermissions(Balanced) && AutoSubmitRemovals !in PresetPermissions(Balanced)
    ensures UseLlmLocal in PresetPermissions(Balanced) && SubmitRemovalForms in PresetPermissions(Balanced)
    ensures forall p :: p in PresetPermissions(Minimal) ==> p != UseLlmCloud && p != UseLlmLocal && p != LlmGuidedBrowsing
  {
  }

  /**
   * `recommended`, which is also the default: the one preset that allows
   * local models but not cloud ones.
   */
  function Recommended(): (r: Preset)
    ensures UseLlmLocal in PresetPermissions(r) && UseLlmCloud !in PresetPermissions(r)
    ensures forall q :: UseLlmLocal in PresetPermissions(q) && UseLlmCloud !in PresetPermissions(q) ==> q == r
  {
    Balanced
  }

  /** `all`. */
  function AllPresets(): (r: seq<Preset>)
    ensures |r| == 3 && Seqs.Distinct(r)
  {
    [Minimal, Balanced, Maximum]
  }

  /** `all` lists every preset. */
  lemma AllPresetsListed(preset: Preset)
    ensures preset in AllPresets()
  {
  }
}
