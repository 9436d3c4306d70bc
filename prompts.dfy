/**
 * The text shown when the user is asked for a permission: title, risk,
 * which data it reaches, what denying it costs and what to do instead.
 */
module PermissionPrompts {
  import opened Ints
  import opened Text
  import opened Permissions
  import CoreTypes
  import Seqs

  datatype RiskLevel = Low | Medium | High | Critical

  /** The position of a risk level on the scale, from 0 (low) to 3 (critical). */
  function Rank(level: RiskLevel): nat {
    match level
    case Low => 0
    case Medium => 1
    case High => 2
    case Critical => 3
  }

  /** `from_permission_risk`: 0 to 2 map to their own level, anything above saturates at Critical. */
  function FromPermissionRisk(level: uint8): (r: RiskLevel)
    ensures Rank(r) == if level < 3 then level else 3
  {
    match level
    case 0 => Low
    case 1 => Medium
    case 2 => High
    case _ => Critical
  }

  /** A higher numeric risk never maps to a lower level. */
  lemma FromRiskMonotone(a: uint8, b: uint8)
    requires a <= b
    ensures Rank(FromPermissionRisk(a)) <= Rank(FromPermissionRisk(b))
  {
  }

  /** A permission that sends data off the machine prompts as Critical, one that stays local as Low. */
  lemma PermissionRisk(p: Permission)
    ensures FromPermissionRisk(Permissions.RiskLevel(p)) == Critical <==> p == UseLlmCloud || p == SendEmails
    ensures FromPermissionRisk(Permissions.RiskLevel(p)) == Low
        <==> p == UseLlmLocal || p == AutoScheduleScans || p == BackgroundExecution
    ensures FromPermissionRisk(Permissions.RiskLevel(ScanBrokers)) == Medium
  {
  }

  const NO_DATA_ACCESS: string := "No personal data access"
  const MAY_ACCESS: string := "May access: "

  /** The `data_access` line: either no access, or the reachable fields by name. */
  function DataAccess(p: Permission): (r: string)
    ensures r == NO_DATA_ACCESS <==> PiiAccess(p) == []
    ensures PiiAccess(p) != [] ==> |r| >= |MAY_ACCESS| && r[..|MAY_ACCESS|] == MAY_ACCESS
  {
    if PiiAccess(p) == [] then NO_DATA_ACCESS
    else
      var r := MAY_ACCESS + Join(Seqs.Map(PiiAccess(p), CoreTypes.DisplayName), ", ");
      assert r[0] != NO_DATA_ACCESS[0];
      r
  }

  /** `denial_consequence`: what the user gives up by saying no. */
  function DenialConsequence(p: Permission): string {
    match p
    case ScanBrokers => "You will need to manually search broker sites to find your information."
    case SubmitRemovalForms => "You will need to manually fill out and submit removal forms."
    case SendEmails => "Email-based removal requests will not be available."
    case NetworkAccess => "Spectral will not be able to connect to external websites."
    case UseLlmCloud => "AI features will be limited to local models only (if available)."
    case UseLlmLocal => "AI-assisted features will not be available."
    case LlmGuidedBrowsing => "Complex broker sites may be harder to navigate automatically."
    case ScanFilesystem => "Spectral will not be able to find PII in your local files."
    case ScanBrowserData => "Spectral will not check your browser for saved credentials or tracking."
    case ScanEmails => "Spectral will not be able to scan your emails for PII exposure."
    case AutoScheduleScans => "You will need to manually start each broker scan."
    case AutoSubmitRemovals => "You will need to approve each removal submission manually."
    case BackgroundExecution => "Spectral will not run in the background or show notifications."
  }

  /** `permission_alternatives`: offered only for cloud models, the local scans and unattended removal. */
  function Alternatives(p: Permission): (r: seq<string>)
    ensures r != [] <==> p in {UseLlmCloud, ScanFilesystem, ScanBrowserData, ScanEmails, AutoSubmitRemovals}
    ensures p == UseLlmCloud ==> |r| == 2
  {
    match p
    case UseLlmCloud => ["Use local LLM instead", "Disable AI features entirely"]
    case ScanFilesystem | ScanBrowserData | ScanEmails => ["Manually review specific files"]
    case AutoSubmitRemovals => ["Review and approve each removal manually"]
    case _ => []
  }

  /** The first alternative to a cloud model is a local one. */
  lemma CloudAlternativeIsLocal()
    ensures "local" == Alternatives(UseLlmCloud)[0][4..9]
  {
  }

  /**
   * `PermissionPrompt`, without its random id. The message and the denial
   * consequence are fixed texts of the permission, so they are read off it
   * rather than stored.
   */
  datatype Prompt = Prompt(
    permission: Permission,
    title: string,
    riskLevel: RiskLevel,
    dataAccess: string,
    alternatives: seq<string>)
  {
    function Message(): string {
      Description(permission)
    }

    function IfDenied(): string {
      DenialConsequence(permission)
    }
  }

  /**
   * `PermissionPrompt::new`: the risk follows the permission's numeric risk,
   * the data line says "no access" exactly when the permission reaches no
   * field, and alternatives appear exactly for the permissions that have one.
   */
  function NewPrompt(p: Permission): (r: Prompt)
    ensures r.permission == p
    ensures Rank(r.riskLevel) == Permissions.RiskLevel(p)
    ensures r.dataAccess == NO_DATA_ACCESS <==> PiiAccess(p) == []
    ensures r.alternatives != [] <==> p in {UseLlmCloud, ScanFilesystem, ScanBrowserData, ScanEmails, AutoSubmitRemovals}
  {
    Prompt(p, "Allow " + DisplayName(p) + "?", FromPermissionRisk(Permissions.RiskLevel(p)),
           DataAccess(p), Alternatives(p))
  }

  /** Prompts for distinct permissions have distinct titles. */
  lemma TitlesDistinct(p: Permission, q: Permission)
    requires p != q
    ensures NewPrompt(p).title != NewPrompt(q).title
  {
    DisplayNamesDistinct(p, q);
    FramedDistinct("Allow ", DisplayName(p), DisplayName(q), "?");
  }
}
