/**
 * The desktop application's shared state: where vaults live on disk, and
 * which vaults are unlocked right now.
 *
 * A path is its list of components. An unlocked vault is shared behind an
 * `Arc`; the model keeps only which shared vault it is (`VaultHandle`).
 */
module AppStates {
  import opened Wrappers
  import opened Text

  datatype VaultHandle = VaultHandle(instance: nat)

  /** What `vault_dir` panics with. */
  datatype Panic = InvalidVaultId(message: string)

  const SEPARATOR_MESSAGE: string := "Invalid vault_id: must not contain path separators or '..'"
  const EMPTY_MESSAGE: string := "Invalid vault_id: must not be empty"

  /** The checks `vault_dir` makes: the id is not empty and holds no separator and no `..`. */
  predicate IsSafeVaultId(id: string) {
    id != [] && '/' !in id && '\\' !in id && !Contains(id, "..")
  }

  /**
   * `vault_dir` as written: the separator check comes first, then the empty
   * check, then the join. A path is its list of components as
   * `Path::components` yields them, so joining `.` leaves the directory as
   * it was: the id `.` passes both checks and names the vaults directory itself.
   */
  function VaultDirAsWritten(vaultsDir: seq<string>, id: string): (r: Result<seq<string>, Panic>)
    ensures r.Ok? <==> IsSafeVaultId(id)
    ensures r.Ok? && id == "." ==> r.value == vaultsDir
    ensures r.Ok? && id != "." ==> r.value == vaultsDir + [id]
  {
    if '/' in id || '\\' in id || Contains(id, "..") then
      Err(InvalidVaultId(SEPARATOR_MESSAGE))
    else if id == [] then
      Err(InvalidVaultId(EMPTY_MESSAGE))
    else if id == "." then
      Ok(vaultsDir)
    else
      Ok(vaultsDir + [id])
  }

  /** `vault_db_path` as written: the as-written vault directory joined with `vault.db`. */
  function VaultDbPathAsWritten(vaultsDir: seq<string>, id: string): (r: Result<seq<string>, Panic>)
    ensures r.Ok? <==> IsSafeVaultId(id)
    ensures r.Ok? && id == "." ==> r.value == vaultsDir + ["vault.db"]
    ensures r.Ok? && id != "." ==> r.value == vaultsDir + [id, "vault.db"]
  {
    var dir :- VaultDirAsWritten(vaultsDir, id);
    Ok(dir + ["vault.db"])
  }

  /** `vault_metadata_path` as written: the as-written vault directory joined with `metadata.json`. */
  function VaultMetadataPathAsWritten(vaultsDir: seq<string>, id: string): (r: Result<seq<string>, Panic>)
    ensures r.Ok? <==> IsSafeVaultId(id)
    ensures r.Ok? && id == "." ==> r.value == vaultsDir + ["metadata.json"]
    ensures r.Ok? && id != "." ==> r.value == vaultsDir + [id, "metadata.json"]
  {
    var dir :- VaultDirAsWritten(vaultsDir, id);
    Ok(dir + ["metadata.json"])
  }

  /**
   * As written, the vault `.` keeps its database where the vault
   * `vault.db` has its directory: two ids, one location.
   */
  lemma DotIdCollides(vaultsDir: seq<string>)
    ensures VaultDirAsWritten(vaultsDir, ".") == Ok(vaultsDir)
    ensures VaultDirAsWritten(vaultsDir, "vault.db") == Ok(vaultsDir + ["vault.db"])
    ensures VaultDirAsWritten(vaultsDir, ".").value + ["vault.db"] == VaultDirAsWritten(vaultsDir, "vault.db").value
    ensures VaultDbPathAsWritten(vaultsDir, ".") == VaultDirAsWritten(vaultsDir, "vault.db")
  {
    var name := "vault.db";
    assert forall k :: 0 <= k < |name| ==> name[k] != '/' && name[k] != '\\';
    forall i | 0 <= i <= |name| - 2 ensures !OccursAt(name, "..", i) {
      assert name[i..i + 2][0] == name[i] && name[i..i + 2][1] == name[i + 1];
      assert name[i] != '.' || name[i + 1] != '.';
    }
  }

  /**
   * `vault_dir` as evidently intended: the id `.` is refused like `..`, so
   * every accepted id names a directory of its own one level below the
   * vaults directory. On every other id it is `vault_dir` as written.
   */
  function VaultDir(vaultsDir: seq<string>, id: string): (r: Result<seq<string>, Panic>)
    ensures r.Ok? <==> IsSafeVaultId(id) && id != "."
    ensures r.Ok? ==> r.value == vaultsDir + [id]
    ensures id != "." ==> r == VaultDirAsWritten(vaultsDir, id)
  {
    if id == "." then Err(InvalidVaultId(SEPARATOR_MESSAGE))
    else VaultDirAsWritten(vaultsDir, id)
  }

  /** `vault_db_path` on the corrected `VaultDir`; on every id but `.` it is the code as written. */
  function VaultDbPath(vaultsDir: seq<string>, id: string): (r: Result<seq<string>, Panic>)
    ensures r.Ok? <==> VaultDir(vaultsDir, id).Ok?
    ensures r.Ok? ==> r.value == VaultDir(vaultsDir, id).value + ["vault.db"]
    ensures id != "." ==> r == VaultDbPathAsWritten(vaultsDir, id)
  {
    var dir :- VaultDir(vaultsDir, id);
    Ok(dir + ["vault.db"])
  }

  /** `vault_metadata_path` on the corrected `VaultDir`; on every id but `.` it is the code as written. */
  function VaultMetadataPath(vaultsDir: seq<string>, id: string): (r: Result<seq<string>, Panic>)
    ensures r.Ok? <==> VaultDir(vaultsDir, id).Ok?
    ensures r.Ok? ==> r.value == VaultDir(vaultsDir, id).value + ["metadata.json"]
    ensures id != "." ==> r == VaultMetadataPathAsWritten(vaultsDir, id)
  {
    var dir :- VaultDir(vaultsDir, id);
    Ok(dir + ["metadata.json"])
  }

  /** The two files of a vault lie side by side in its own directory, one level below the vaults directory. */
  lemma VaultFilesTogether(vaultsDir: seq<string>, id: string)
    requires VaultDir(vaultsDir, id).Ok?
    ensures VaultDbPath(vaultsDir, id).value == vaultsDir + [id, "vault.db"]
    ensures VaultMetadataPath(vaultsDir, id).value == vaultsDir + [id, "metadata.json"]
    ensures VaultDbPath(vaultsDir, id).value != VaultMetadataPath(vaultsDir, id).value
  {
    assert vaultsDir + [id] + ["vault.db"] == vaultsDir + [id, "vault.db"];
    assert vaultsDir + [id] + ["metadata.json"] == vaultsDir + [id, "metadata.json"];
    assert (vaultsDir + [id, "vault.db"])[|vaultsDir| + 1] == "vault.db";
  }

  /**
   * With `.` refused, vaults do not share locations: distinct ids have
   * distinct directories, and no vault's file is another vault's directory.
   */
  lemma VaultsApart(vaultsDir: seq<string>, a: string, b: string)
    requires VaultDir(vaultsDir, a).Ok? && VaultDir(vaultsDir, b).Ok?
    ensures a != b ==> VaultDir(vaultsDir, a).value != VaultDir(vaultsDir, b).value
    ensures VaultDbPath(vaultsDir, a).value != VaultDir(vaultsDir, b).value
    ensures VaultMetadataPath(vaultsDir, a).value != VaultDir(vaultsDir, b).value
  {
    if a != b {
      assert (vaultsDir + [a])[|vaultsDir|] != (vaultsDir + [b])[|vaultsDir|];
    }
  }

  /** A traversal, a nested path and the empty id are refused; the separator message wins for the first two. */
  lemma RejectedIds(vaultsDir: seq<string>)
    ensures VaultDir(vaultsDir, "../../../etc/passwd") == Err(InvalidVaultId(SEPARATOR_MESSAGE))
    ensures VaultDir(vaultsDir, "vault/subdir") == Err(InvalidVaultId(SEPARATOR_MESSAGE))
    ensures VaultDir(vaultsDir, "") == Err(InvalidVaultId(EMPTY_MESSAGE))
  {
    assert "../../../etc/passwd"[2] == '/';
    assert "vault/subdir"[5] == '/';
  }

  /** A plain id is accepted. */
  lemma AcceptedId(vaultsDir: seq<string>)
    ensures VaultDir(vaultsDir, "test-vault-id") == Ok(vaultsDir + ["test-vault-id"])
  {
    var id := "test-vault-id";
    assert forall k :: 0 <= k < |id| ==> id[k] != '.' && id[k] != '/' && id[k] != '\\';
    NoCharNoPattern(id, "..", '.');
  }

  /** `AppState`, without the lazily created browser engine. */
  class AppState {
    const vaultsDir: seq<string>
    var unlockedVaults: map<string, VaultHandle>

    /** `AppState::new` once the vaults directory is known: nothing unlocked. */
    constructor (vaultsDir: seq<string>)
      ensures this.vaultsDir == vaultsDir && unlockedVaults == map[]
    {
      this.vaultsDir := vaultsDir;
      unlockedVaults := map[];
    }

    /** `is_vault_unlocked`. */
    function IsVaultUnlocked(id: string): bool
      reads this
    {
      id in unlockedVaults
    }

    /** `get_vault`. */
    function GetVault(id: string): (r: Option<VaultHandle>)
      reads this
      ensures r.Some? <==> IsVaultUnlocked(id)
    {
      if id in unlockedVaults then Some(unlockedVaults[id]) else None
    }

    /** `insert_vault`: the vault is unlocked under its id, replacing any earlier one; other ids keep theirs. */
    method InsertVault(id: string, vault: VaultHandle)
      modifies this
      ensures unlockedVaults == old(unlockedVaults)[id := vault]
      ensures GetVault(id) == Some(vault) && IsVaultUnlocked(id)
      ensures forall other :: other != id ==> GetVault(other) == old(GetVault(other))
    {
      unlockedVaults := unlockedVaults[id := vault];
    }

    /** `remove_vault`: hands back the vault that was unlocked, if any, and locks it; other ids keep theirs. */
    method RemoveVault(id: string) returns (removed: Option<VaultHandle>)
      modifies this
      ensures removed == old(GetVault(id))
      ensures unlockedVaults == old(unlockedVaults) - {id}
      ensures !IsVaultUnlocked(id)
      ensures forall other :: other != id ==> GetVault(other) == old(GetVault(other))
    {
      removed := GetVault(id);
      unlockedVaults := unlockedVaults - {id};
    }
  }

  /** A fresh state: unlocking a vault makes it available, and removing it hands it back and locks it again. */
  method UnlockThenLock(vaultsDir: seq<string>, id: string, vault: VaultHandle)
    returns (before: bool, got: Option<VaultHandle>, removed: Option<VaultHandle>, after: bool)
    ensures !before && got == Some(vault) && removed == Some(vault) && !after
  {
    var state := new AppState(vaultsDir);
    before := state.IsVaultUnlocked(id);
    state.InsertVault(id, vault);
    got := state.GetVault(id);
    removed := state.RemoveVault(id);
    after := state.IsVaultUnlocked(id);
  }
}
