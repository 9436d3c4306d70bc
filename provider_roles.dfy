/** The role names the provider wire formats use. */
module ProviderRoles {
  import opened LlmProvider

  /** `convert_role_standard`: the role's own lower-case name. */
  function ConvertRoleStandard(role: Role): string {
    match role
    case System => "system"
    case User => "user"
    case Assistant => "assistant"
  }

  /** `convert_role_gemini`: Gemini has no system role and calls the assistant "model". */
  function ConvertRoleGemini(role: Role): string {
    match role
    case System | User => "user"
    case Assistant => "model"
  }

  /**
   * The standard names tell the roles apart; the Gemini names never say
   * "assistant" or "system", folding the system role into the user's;
   * both name the user "user".
   */
  lemma RoleNames(a: Role, b: Role)
    ensures ConvertRoleStandard(a) == ConvertRoleStandard(b) ==> a == b
    ensures ConvertRoleGemini(a) != "assistant" && ConvertRoleGemini(a) != "system"
    ensures ConvertRoleGemini(a) == ConvertRoleGemini(b) <==> (a == Assistant) == (b == Assistant)
    ensures ConvertRoleStandard(User) == ConvertRoleGemini(User) == "user"
  {
  }
}
