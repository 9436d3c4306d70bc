/**
 * The permission audit log: an append-only list of grant, denial,
 * revocation and check events, with queries by permission and by recency.
 */
module Audit {
  import opened Permissions
  import Seqs

  datatype AuditOutcome = Allowed | Denied | Error(reason: string)

  /** Every event names the permission it is about. */
  datatype AuditEventType =
    | PermissionCheck(permission: Permission, outcome: AuditOutcome)
    | PermissionGranted(permission: Permission, source: GrantSource)
    | PermissionDenied(permission: Permission)
    | PermissionRevoked(permission: Permission)

  /** `AuditEntry` without its random id; the metadata is always empty when logged. */
  datatype AuditEntry = AuditEntry(timestamp: int, eventType: AuditEventType, metadata: string)
  {
    /** `involves_permission`: the event's permission is `p`, whichever kind of event it is. */
    predicate InvolvesPermission(p: Permission)
      ensures InvolvesPermission(p) <==> eventType.permission == p
    {
      match eventType
      case PermissionCheck(q, _) => q == p
      case PermissionGranted(q, _) => q == p
      case PermissionDenied(q) => q == p
      case PermissionRevoked(q) => q == p
    }
  }

  /** The entries of `log` about `p`, in log order. */
  function Involving(log: seq<AuditEntry>, p: Permission): (r: seq<AuditEntry>)
    ensures forall e :: e in r <==> e in log && e.InvolvesPermission(p)
  {
    Seqs.Filter(log, (e: AuditEntry) => e.InvolvesPermission(p))
  }

  /** Logging one more entry adds it to the answer of every query it involves, at the end. */
  lemma InvolvingAppend(log: seq<AuditEntry>, e: AuditEntry, p: Permission)
    ensures Involving(log + [e], p) == Involving(log, p) + (if e.InvolvesPermission(p) then [e] else [])
  {
    Seqs.FilterAppend(log, [e], (x: AuditEntry) => x.InvolvesPermission(p));
  }

  /** The last `min(count, |log|)` entries, oldest first. */
  function Recent(log: seq<AuditEntry>, count: nat): (r: seq<AuditEntry>)
    ensures |r| == if count < |log| then count else |log|
    ensures log == log[..|log| - |r|] + r
  {
    var start := if |log| >= count then |log| - count else 0;
    log[start..]
  }

  class AuditLogger {
    var entries: seq<AuditEntry>

    /** `AuditLogger::new`: an empty log. */
    constructor()
      ensures entries == []
    {
      entries := [];
    }

    /** `entry_count`. */
    function EntryCount(): nat
      reads this
    {
      |entries|
    }

    /** `log_permission_check`: one check entry, at the end. */
    method LogPermissionCheck(p: Permission, outcome: AuditOutcome, now: int)
      modifies this
      ensures entries == old(entries) + [AuditEntry(now, PermissionCheck(p, outcome), "")]
      ensures EntryCount() == old(EntryCount()) + 1
    {
      entries := entries + [AuditEntry(now, PermissionCheck(p, outcome), "")];
    }

    /** `log_permission_granted`: one grant entry, at the end. */
    method LogPermissionGranted(p: Permission, source: GrantSource, now: int)
      modifies this
      ensures entries == old(entries) + [AuditEntry(now, PermissionGranted(p, source), "")]
      ensures EntryCount() == old(EntryCount()) + 1
    {
      entries := entries + [AuditEntry(now, PermissionGranted(p, source), "")];
    }

    /** `log_permission_denied`: one denial entry, at the end. */
    method LogPermissionDenied(p: Permission, now: int)
      modifies this
      ensures entries == old(entries) + [AuditEntry(now, PermissionDenied(p), "")]
      ensures EntryCount() == old(EntryCount()) + 1
    {
      entries := entries + [AuditEntry(now, PermissionDenied(p), "")];
    }

    /** `log_permission_revoked`: one revocation entry, at the end. */
    method LogPermissionRevoked(p: Permission, now: int)
      modifies this
      ensures entries == old(entries) + [AuditEntry(now, PermissionRevoked(p), "")]
      ensures EntryCount() == old(EntryCount()) + 1
    {
      entries := entries + [AuditEntry(now, PermissionRevoked(p), "")];
    }

    /** `entries_for_permission`: exactly the entries about `p`, in log order. */
    function EntriesForPermission(p: Permission): (r: seq<AuditEntry>)
      reads this
      ensures forall e :: e in r <==> e in entries && e.InvolvesPermission(p)
    {
      Involving(entries, p)
    }

    /** `recent_entries`: the newest `count` entries (all of them if there are fewer), oldest first. */
    function RecentEntries(count: nat): (r: seq<AuditEntry>)
      reads this
      ensures |r| == if count < |entries| then count else |entries|
      ensures entries == entries[..|entries| - |r|] + r
    {
      Recent(entries, count)
    }

    /** `clear`. */
    method Clear()
      modifies this
      ensures entries == [] && EntryCount() == 0
    {
      entries := [];
    }
  }
}
