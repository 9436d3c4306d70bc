/**
 * The permission vocabulary: the thirteen permissions, their display names,
 * risk levels and the personal data each may touch, and the grant record
 * the manager keeps for a granted permission.
 *
 * Instants are whole numbers on one clock (the caller passes "now"); the
 * grant's random id is not modelled.
 */
module Permissions {
  import opened Wrappers
  import opened Ints
  import opened CoreTypes
  import Seqs

  datatype Permission =
    // network
    | ScanBrokers | SubmitRemovalForms | SendEmails | NetworkAccess
    // language models
    | UseLlmCloud | UseLlmLocal | LlmGuidedBrowsing
    // local scanning
    | ScanFilesystem | ScanBrowserData | ScanEmails
    // automation
    | AutoScheduleScans | AutoSubmitRemovals | BackgroundExecution

  /** Every permission, in declaration order. */
  const ALL_PERMISSIONS: seq<Permission> := [
    ScanBrokers, SubmitRemovalForms, SendEmails, NetworkAccess,
    UseLlmCloud, UseLlmLocal, LlmGuidedBrowsing,
    ScanFilesystem, ScanBrowserData, ScanEmails,
    AutoScheduleScans, AutoSubmitRemovals, BackgroundExecution
  ]

  /** The list of all permissions names each one exactly once. */
  lemma AllPermissionsListed(p: Permission)
    ensures p in ALL_PERMISSIONS
    ensures |ALL_PERMISSIONS| == 13 && Seqs.Distinct(ALL_PERMISSIONS)
  {
  }

  datatype GrantSource = UserExplicit | FirstRunWizard | Settings | Default

  /** `PermissionError`; the I/O and serialization cases carry no detail here. */
  datatype PermissionError =
    | Denied(reason: string)
    | Timeout
    | Invalid(reason: string)
    | AuditError(reason: string)
    | Io
    | Serialization

  /** `display_name`. */
  function DisplayName(p: Permission): (r: string)
    ensures |r| > 0
  {
    match p
    case ScanBrokers => "Scan Data Brokers"
    case SubmitRemovalForms => "Submit Removal Forms"
    case SendEmails => "Send Emails"
    case NetworkAccess => "Network Access"
    case UseLlmCloud => "Use Cloud LLM"
    case UseLlmLocal => "Use Local LLM"
    case LlmGuidedBrowsing => "LLM-Guided Browsing"
    case ScanFilesystem => "Scan Filesystem"
    case ScanBrowserData => "Scan Browser Data"
    case ScanEmails => "Scan Emails"
    case AutoScheduleScans => "Auto-Schedule Scans"
    case AutoSubmitRemovals => "Auto-Submit Removals"
    case BackgroundExecution => "Background Execution"
  }

  /** Two permissions never share a display name. */
  lemma DisplayNamesDistinct(p: Permission, q: Permission)
    ensures DisplayName(p) == DisplayName(q) ==> p == q
  {
  }

  /** `description`. */
  function Description(p: Permission): string {
    match p
    case ScanBrokers => "Allow Spectral to scan data broker websites to search for your personal information"
    case SubmitRemovalForms => "Allow Spectral to automatically submit opt-out and removal forms to data brokers"
    case SendEmails => "Allow Spectral to send emails for removal requests and notifications"
    case NetworkAccess => "Allow Spectral to make HTTP requests to external websites"
    case UseLlmCloud => "Allow using cloud-based AI providers (data sent to external servers)"
    case UseLlmLocal => "Allow using locally-running AI models (data stays on your machine)"
    case LlmGuidedBrowsing => "Allow AI to guide browser automation for complex broker sites"
    case ScanFilesystem => "Allow scanning local files to discover PII exposure"
    case ScanBrowserData => "Allow reading browser history, saved passwords, and cookies"
    case ScanEmails => "Allow scanning email via IMAP or local mailbox files"
    case AutoScheduleScans => "Allow Spectral to automatically schedule periodic broker scans"
    case AutoSubmitRemovals => "Allow Spectral to submit removals automatically without asking each time"
    case BackgroundExecution => "Allow Spectral to run in the background and show notifications"
  }

  /**
   * `risk_level`, from 0 to 3: data leaving the machine is 3, purely local
   * work and automation bookkeeping is 0.
   */
  function RiskLevel(p: Permission): (r: uint8)
    ensures r <= 3
    ensures r == 3 <==> p == UseLlmCloud || p == SendEmails
    ensures r == 2 <==> p == SubmitRemovalForms || p == AutoSubmitRemovals || p == ScanEmails
    ensures r == 0 <==> p == UseLlmLocal || p == AutoScheduleScans || p == BackgroundExecution
  {
    match p
    case UseLlmCloud | SendEmails => 3
    case SubmitRemovalForms | AutoSubmitRemovals | ScanEmails => 2
    case ScanBrokers | NetworkAccess | ScanFilesystem | ScanBrowserData | LlmGuidedBrowsing => 1
    case UseLlmLocal | AutoScheduleScans | BackgroundExecution => 0
  }

  /** The five fields a permission that handles the profile may reach. */
  const PROFILE_FIELDS: seq<PiiField> := [FullName, Email, Phone, Address, DateOfBirth]

  /**
   * `pii_access`: the profile fields a permission may reach. Local scans can
   * find everything but the date of birth; network access and automation
   * bookkeeping reach nothing.
   */
  function PiiAccess(p: Permission): (r: seq<PiiField>)
    ensures r == [] <==> p == NetworkAccess || p == AutoScheduleScans || p == BackgroundExecution
    ensures forall f :: f in r ==> f in PROFILE_FIELDS
    ensures (p == ScanFilesystem || p == ScanBrowserData || p == ScanEmails) <==> |r| == 4
    ensures DateOfBirth in r <==> |r| == 5
    ensures Seqs.Distinct(r)
  {
    match p
    case ScanBrokers | SubmitRemovalForms | SendEmails | UseLlmCloud | UseLlmLocal
       | LlmGuidedBrowsing | AutoSubmitRemovals =>
      [FullName, Email, Phone, Address, DateOfBirth]
    case ScanFilesystem | ScanBrowserData | ScanEmails =>
      [FullName, Email, Phone, Address]
    case NetworkAccess | AutoScheduleScans | BackgroundExecution => []
  }

  /** Every permission that may send data off the machine may reach the whole profile. */
  lemma RiskiestReachEverything(p: Permission)
    requires RiskLevel(p) == 3
    ensures PiiAccess(p) == PROFILE_FIELDS
  {
  }

  /**
   * `PermissionGrant` without its random id. The use count is unbounded:
   * the 64-bit counter would need 2^64 uses to overflow.
   */
  datatype Grant = Grant(
    permission: Permission,
    grantedAt: int,
    grantedBy: GrantSource,
    expiresAt: Option<int>,
    useCount: nat,
    lastUsed: Option<int>)

  /** `PermissionGrant::new`: granted now, never used, no expiry. */
  function NewGrant(p: Permission, source: GrantSource, now: int): (g: Grant)
    ensures g.permission == p && g.grantedBy == source && g.grantedAt == now
    ensures g.useCount == 0 && g.lastUsed.None? && g.expiresAt.None?
  {
    Grant(p, now, source, None, 0, None)
  }

  /** `is_expired`: only a grant with an expiry can lapse, strictly after that instant. */
  predicate IsExpired(g: Grant, now: int) {
    match g.expiresAt
    case Some(at) => now > at
    case None => false
  }

  /**
   * A fresh grant never lapses; a grant with an expiry is live up to and at
   * that instant and lapsed at every later one, for good.
   */
  lemma ExpiryRules(p: Permission, source: GrantSource, g: Grant, t: int, later: int)
    requires t <= later
    ensures !IsExpired(NewGrant(p, source, t), later)
    ensures g.expiresAt.Some? ==> !IsExpired(g, g.expiresAt.value) && IsExpired(g, g.expiresAt.value + 1)
    ensures IsExpired(g, t) ==> IsExpired(g, later)
  {
  }

  /** `record_use`: one more use, last used now; nothing else changes. */
  function RecordUse(g: Grant, now: int): (r: Grant)
    ensures r.useCount == g.useCount + 1 && r.lastUsed == Some(now)
    ensures r.permission == g.permission && r.grantedAt == g.grantedAt && r.grantedBy == g.grantedBy
    ensures r.expiresAt == g.expiresAt
  {
    g.(useCount := g.useCount + 1, lastUsed := Some(now))
  }

  /** The grant after `n` uses at `now`. */
  function UseTimes(g: Grant, now: int, n: nat): Grant
    decreases n
  {
    if n == 0 then g else RecordUse(UseTimes(g, now, n - 1), now)
  }

  /** `n` uses add exactly `n` to the count, and using a grant never changes whether it has lapsed. */
  lemma {:induction false} UseTimesCounts(g: Grant, now: int, n: nat, t: int)
    ensures UseTimes(g, now, n).useCount == g.useCount + n
    ensures IsExpired(UseTimes(g, now, n), t) == IsExpired(g, t)
    decreases n
  {
    if n > 0 {
      UseTimesCounts(g, now, n - 1, t);
    }
  }
}
