/**
 * Privacy levels and the feature flags each level switches on, and the
 * answer of a permission check.
 */
module PrivacyTypes {
  import opened Wrappers

  datatype PrivacyLevel = Paranoid | LocalPrivacy | Balanced | Custom

  datatype FeatureFlags = FeatureFlags(
    allowLocalLlm: bool,
    allowCloudLlm: bool,
    allowBrowserAutomation: bool,
    allowEmailSending: bool,
    allowImapMonitoring: bool,
    allowPiiScanning: bool)

  /** Every flag of `a` that is on is on in `b` too. */
  predicate AtMost(a: FeatureFlags, b: FeatureFlags) {
    && (a.allowLocalLlm ==> b.allowLocalLlm)
    && (a.allowCloudLlm ==> b.allowCloudLlm)
    && (a.allowBrowserAutomation ==> b.allowBrowserAutomation)
    && (a.allowEmailSending ==> b.allowEmailSending)
    && (a.allowImapMonitoring ==> b.allowImapMonitoring)
    && (a.allowPiiScanning ==> b.allowPiiScanning)
  }

  /** All six flags set to `on`. */
  function AllFlags(on: bool): FeatureFlags {
    FeatureFlags(on, on, on, on, on, on)
  }

  /** `FeatureFlags::from_privacy_level`; `Custom` takes the defaults. */
  function FromPrivacyLevel(level: PrivacyLevel): (r: FeatureFlags)
    ensures level == Paranoid ==> r == AllFlags(false)
    ensures level == LocalPrivacy ==> r == AllFlags(true).(allowCloudLlm := false)
    ensures level == Balanced || level == Custom ==> r == AllFlags(true)
  {
    match level
    case Paranoid => FeatureFlags(false, false, false, false, false, false)
    case LocalPrivacy => FeatureFlags(true, false, true, true, true, true)
    case Balanced => FeatureFlags(true, true, true, true, true, true)
    case Custom => DefaultFlags()
  }

  /** `FeatureFlags::default`: the flags of `Balanced`. */
  function DefaultFlags(): FeatureFlags {
    FeatureFlags(true, true, true, true, true, true)
  }

  /** The levels are ordered by what they allow: Paranoid, then LocalPrivacy, then Balanced. */
  lemma LevelsNested()
    ensures AtMost(FromPrivacyLevel(Paranoid), FromPrivacyLevel(LocalPrivacy))
    ensures AtMost(FromPrivacyLevel(LocalPrivacy), FromPrivacyLevel(Balanced))
    ensures !AtMost(FromPrivacyLevel(Balanced), FromPrivacyLevel(LocalPrivacy))
    ensures FromPrivacyLevel(Custom) == DefaultFlags() == FromPrivacyLevel(Balanced)
  {
  }

  /** Only Balanced (and the Custom default) allows a cloud model; every level but Paranoid allows a local one. */
  lemma CloudOnlyWhenBalanced(level: PrivacyLevel)
    ensures FromPrivacyLevel(level).allowCloudLlm <==> level == Balanced || level == Custom
    ensures FromPrivacyLevel(level).allowLocalLlm <==> level != Paranoid
  {
  }

  datatype Feature = LocalLlm | CloudLlm | BrowserAutomation | EmailSending | ImapMonitoring | PiiScanning

  datatype PermissionResult = Allowed | Denied(reason: string)

  /** `PermissionResult::is_allowed`. */
  predicate IsAllowed(r: PermissionResult) {
    r.Allowed?
  }

  /** `PermissionResult::reason`. */
  function Reason(r: PermissionResult): Option<string> {
    match r
    case Denied(reason) => Some(reason)
    case Allowed => None
  }

  /** A result is allowed exactly when it gives no reason, and a denial gives back its own reason. */
  lemma AllowedIffNoReason(r: PermissionResult)
    ensures IsAllowed(r) <==> Reason(r) == None
    ensures !IsAllowed(r) ==> r == Denied(Reason(r).value)
  {
  }
}
