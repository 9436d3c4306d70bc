/**
 * The error value the desktop commands return to the front end: a code to
 * branch on, a message to show, and optional details; and the conversions
 * into it from vault, file-system and application errors. Every nested
 * error is given by its display text.
 */
module CommandErrors {
  import opened Wrappers
  import opened JsonValues
  import Seqs
  import opened CoreTypes

  datatype CommandError = CommandError(code: string, message: string, details: Option<Json>)

  /** `CommandError::new`: no details. */
  function New(code: string, message: string): (e: CommandError)
    ensures e.code == code && e.message == message && e.details.None?
  {
    CommandError(code, message, None)
  }

  /** `CommandError::with_details`. */
  function WithDetails(code: string, message: string, details: Json): (e: CommandError)
    ensures e.code == code && e.message == message && e.details == Some(details)
  {
    CommandError(code, message, Some(details))
  }

  /** `VaultError`. */
  datatype VaultError =
    | Locked
    | InvalidPassword
    | VaultNotFound(path: string)
    | KeyDerivation(msg: string)
    | Encryption(msg: string)
    | Decryption(msg: string)
    | Database(err: string)
    | InvalidData(msg: string)
    | NotFound(field: string)
    | Serialization(msg: string)

  /** `From<VaultError>`. */
  function FromVault(err: VaultError): CommandError {
    match err
    case Locked => New("VAULT_LOCKED", "Vault is locked and must be unlocked first")
    case InvalidPassword => New("INVALID_PASSWORD", "Invalid password")
    case VaultNotFound(path) => WithDetails("VAULT_NOT_FOUND", "Vault does not exist", Object([("path", Text(path))]))
    case KeyDerivation(msg) => New("KEY_DERIVATION_FAILED", "Key derivation failed: " + msg)
    case Encryption(msg) => New("ENCRYPTION_FAILED", "Encryption failed: " + msg)
    case Decryption(msg) => New("DECRYPTION_FAILED", "Decryption failed: " + msg)
    case Database(e) => New("DATABASE_ERROR", "Database error: " + e)
    case InvalidData(msg) => New("INVALID_DATA", "Invalid vault data: " + msg)
    case NotFound(field) => New("FIELD_NOT_FOUND", "Field not found: " + field)
    case Serialization(msg) => New("SERIALIZATION_ERROR", "Serialization error: " + msg)
  }

  /**
   * A locked vault and a wrong password have fixed codes; only a missing
   * vault carries details, and those name its path.
   */
  lemma VaultConversions(err: VaultError)
    ensures FromVault(Locked).code == "VAULT_LOCKED"
    ensures FromVault(InvalidPassword) == CommandError("INVALID_PASSWORD", "Invalid password", None)
    ensures FromVault(err).details.Some? <==> err.VaultNotFound?
    ensures err.VaultNotFound? ==>
      FromVault(err).code == "VAULT_NOT_FOUND" && FromVault(err).details == Some(Object([("path", Text(err.path))]))
  {
  }

  /** `From<std::io::Error>`. */
  function FromIo(err: string): (e: CommandError)
    ensures e.code == "FILESYSTEM_ERROR" && e.details.None?
    ensures |e.message| >= 18 && e.message[..18] == "Filesystem error: " && e.message[18..] == err
  {
    New("FILESYSTEM_ERROR", "Filesystem error: " + err)
  }

  /** The codes of the application errors, in the order of the variants. */
  const SPECTRAL_CODES: seq<string> := [
    "CONFIG_ERROR", "VAULT_ERROR", "DATABASE_ERROR", "BROKER_ERROR", "LLM_ERROR", "BROWSER_ERROR",
    "NETWORK_ERROR", "PERMISSION_DENIED", "VALIDATION_ERROR", "IO_ERROR", "INTERNAL_ERROR"
  ]

  /** The position of a variant among the application errors. */
  function SpectralKind(err: SpectralError): (k: nat)
    ensures k < |SPECTRAL_CODES|
  {
    match err
    case Config(_) => 0
    case Vault(_) => 1
    case Database(_) => 2
    case Broker(_) => 3
    case Llm(_) => 4
    case Browser(_) => 5
    case Network(_) => 6
    case PermissionDenied(_) => 7
    case Validation(_) => 8
    case Io(_) => 9
    case Internal(_) => 10
  }

  /** `From<SpectralError>`. */
  function FromSpectral(err: SpectralError): (e: CommandError)
    ensures e.details.None?
  {
    match err
    case Config(c) => New("CONFIG_ERROR", "Configuration error: " + c)
    case Vault(msg) => New("VAULT_ERROR", "Vault error: " + msg)
    case Database(msg) => New("DATABASE_ERROR", "Database error: " + msg)
    case Broker(msg) => New("BROKER_ERROR", "Broker error: " + msg)
    case Llm(msg) => New("LLM_ERROR", "LLM error: " + msg)
    case Browser(msg) => New("BROWSER_ERROR", "Browser error: " + msg)
    case Network(msg) => New("NETWORK_ERROR", "Network error: " + msg)
    case PermissionDenied(msg) => New("PERMISSION_DENIED", "Permission denied: " + msg)
    case Validation(msg) => New("VALIDATION_ERROR", "Validation failed: " + msg)
    case Io(e) => New("IO_ERROR", "I/O error: " + e)
    case Internal(msg) => New("INTERNAL_ERROR", "Internal error: " + msg)
  }

  /** The code of a converted application error is its variant's entry in the code list. */
  lemma SpectralCode(err: SpectralError)
    ensures FromSpectral(err).code == SPECTRAL_CODES[SpectralKind(err)]
  {
  }

  /** No two application error codes are alike. */
  lemma SpectralCodesDistinct()
    ensures Seqs.Distinct(SPECTRAL_CODES)
  {
    var c := SPECTRAL_CODES;
    var sig := seq(|c|, k requires 0 <= k < |c| => (c[k][0], c[k][1], |c[k]|));
    assert sig == [('C', 'O', 12), ('V', 'A', 11), ('D', 'A', 14), ('B', 'R', 12), ('L', 'L', 9), ('B', 'R', 13),
                   ('N', 'E', 13), ('P', 'E', 17), ('V', 'A', 16), ('I', 'O', 8), ('I', 'N', 14)];
    forall i, j | 0 <= i < j < |c| ensures c[i] != c[j] {
      assert sig[i] != sig[j];
    }
  }

  /** Two application errors share a code exactly when they are the same variant. */
  lemma SpectralCodesIdentifyVariant(a: SpectralError, b: SpectralError)
    ensures FromSpectral(a).code == FromSpectral(b).code <==> SpectralKind(a) == SpectralKind(b)
    ensures a.Validation? ==> FromSpectral(a).code == "VALIDATION_ERROR"
  {
    SpectralCode(a);
    SpectralCode(b);
    SpectralCodesDistinct();
  }
}
