/**
 * `PermissionManager`: the grants map, the set of explicit denials and the
 * audit log behind every sensitive action. The shared locks of the source
 * become plain fields; the clock is the `now` argument of each operation.
 */
module PermissionManagement {
  import opened Wrappers
  import opened Permissions
  import opened PermissionPresets
  import opened Audit
  import Seqs

  /** The audit entries a run of grants from `source` at `now` appends, one per permission. */
  function GrantEntries(ps: seq<Permission>, source: GrantSource, now: int): (r: seq<AuditEntry>)
    ensures |r| == |ps|
  {
    if ps == [] then []
    else GrantEntries(ps[..|ps| - 1], source, now) + [AuditEntry(now, PermissionGranted(ps[|ps| - 1], source), "")]
  }

  /** The grants after `grant` of each permission of `ps`, in order, from `source` at `now`. */
  function Granting(g: map<Permission, Grant>, ps: seq<Permission>, source: GrantSource, now: int): map<Permission, Grant>
    decreases |ps|
  {
    if ps == [] then g
    else Granting(g, ps[..|ps| - 1], source, now)[ps[|ps| - 1] := NewGrant(ps[|ps| - 1], source, now)]
  }

  /** Every permission of `ps` ends with a fresh grant from `source`; every other keeps what it had. */
  lemma {:induction false} GrantingEffect(g: map<Permission, Grant>, ps: seq<Permission>, source: GrantSource, now: int)
    ensures forall p :: p in ps ==> p in Granting(g, ps, source, now) && Granting(g, ps, source, now)[p] == NewGrant(p, source, now)
    ensures forall p :: p !in ps ==>
      (p in Granting(g, ps, source, now) <==> p in g) && (p in g ==> Granting(g, ps, source, now)[p] == g[p])
    decreases |ps|
  {
    if ps != [] {
      var n := |ps| - 1;
      GrantingEffect(g, ps[..n], source, now);
      assert forall p :: p in ps <==> p in ps[..n] || p == ps[n] by {
        assert ps == ps[..n] + [ps[n]];
      }
    }
  }

  /** The permissions listed in `ps`. */
  function Members(ps: seq<Permission>): set<Permission> {
    set p | p in ps
  }

  /** One more grant extends the grants, the lifted denials and the log by that permission. */
  lemma GrantingSnoc(g: map<Permission, Grant>, ps: seq<Permission>, i: nat, source: GrantSource, now: int)
    requires i < |ps|
    ensures Granting(g, ps[..i + 1], source, now) == Granting(g, ps[..i], source, now)[ps[i] := NewGrant(ps[i], source, now)]
    ensures GrantEntries(ps[..i + 1], source, now) == GrantEntries(ps[..i], source, now) + [AuditEntry(now, PermissionGranted(ps[i], source), "")]
    ensures Members(ps[..i + 1]) == Members(ps[..i]) + {ps[i]}
  {
    assert ps[..i + 1][..i] == ps[..i];
    assert ps[..i + 1] == ps[..i] + [ps[i]];
  }

  /** `get_usage_stats`. */
  datatype UsageStats = UsageStats(useCount: nat, lastUsed: Option<int>, grantedAt: int, grantedBy: GrantSource)

  class PermissionManager {
    var grants: map<Permission, Grant>
    var denials: set<Permission>
    const audit: AuditLogger

    /** No permission is both granted and denied, and each grant is filed under its own permission. */
    predicate Valid()
      reads this
    {
      && (forall p :: p in grants ==> p !in denials)
      && (forall p :: p in grants ==> grants[p].permission == p)
    }

    /** `PermissionManager::new`: nothing granted, nothing denied, an empty log. */
    constructor()
      ensures Valid() && grants == map[] && denials == {}
      ensures fresh(audit) && audit.entries == []
    {
      grants := map[];
      denials := {};
      audit := new AuditLogger();
    }

    /** `new_with_preset`: a new manager with the preset applied from the first-run wizard. */
    constructor WithPreset(preset: Preset, now: int)
      ensures Valid() && denials == {} && fresh(audit)
      ensures forall p :: p in grants <==> p in PresetPermissions(preset)
      ensures forall p :: p in grants ==> grants[p] == NewGrant(p, FirstRunWizard, now)
      ensures audit.entries == GrantEntries(PresetPermissions(preset), FirstRunWizard, now)
    {
      grants := map[];
      denials := {};
      audit := new AuditLogger();
      new;
      ApplyPreset(preset, FirstRunWizard, now);
    }

    /** `is_granted`: a grant exists and has not lapsed. */
    predicate IsGranted(p: Permission, now: int)
      reads this
    {
      p in grants && !IsExpired(grants[p], now)
    }

    /** `is_denied`. */
    predicate IsDenied(p: Permission)
      reads this
    {
      p in denials
    }

    /**
     * `request`. A denial wins; a live grant records one use and allows; a
     * lapsed grant is dropped and, like a missing one, refused. Each call
     * logs exactly one check entry, and denials never change.
     */
    method Request(p: Permission, now: int) returns (r: Result<(), PermissionError>)
      requires Valid()
      modifies this, audit
      ensures Valid() && denials == old(denials)
      ensures old(IsDenied(p)) ==>
        && r == Err(PermissionError.Denied("permission " + DisplayName(p) + " was previously denied"))
        && grants == old(grants)
        && audit.entries == old(audit.entries) + [AuditEntry(now, PermissionCheck(p, AuditOutcome.Denied), "")]
      ensures !old(IsDenied(p)) && old(IsGranted(p, now)) ==>
        && r == Ok(())
        && grants == old(grants)[p := RecordUse(old(grants)[p], now)]
        && audit.entries == old(audit.entries) + [AuditEntry(now, PermissionCheck(p, Allowed), "")]
      ensures !old(IsDenied(p)) && !old(IsGranted(p, now)) ==>
        && r == Err(PermissionError.Denied("permission " + DisplayName(p) + " not granted"))
        && grants == old(grants) - {p}
        && audit.entries == old(audit.entries) + [AuditEntry(now, PermissionCheck(p, AuditOutcome.Denied), "")]
    {
      if p in denials {
        audit.LogPermissionCheck(p, AuditOutcome.Denied, now);
        return Err(PermissionError.Denied("permission " + DisplayName(p) + " was previously denied"));
      }
      if p in grants {
        var grant := grants[p];
        if IsExpired(grant, now) {
          grants := grants - {p};
        } else {
          grants := grants[p := RecordUse(grant, now)];
          audit.LogPermissionCheck(p, Allowed, now);
          return Ok(());
        }
      }
      audit.LogPermissionCheck(p, AuditOutcome.Denied, now);
      r := Err(PermissionError.Denied("permission " + DisplayName(p) + " not granted"));
    }

    /** `grant`: a fresh grant replaces any earlier one and lifts a denial. */
    method Grant(p: Permission, source: GrantSource, now: int)
      requires Valid()
      modifies this, audit
      ensures Valid()
      ensures grants == old(grants)[p := NewGrant(p, source, now)]
      ensures denials == old(denials) - {p}
      ensures audit.entries == old(audit.entries) + [AuditEntry(now, PermissionGranted(p, source), "")]
    {
      grants := grants[p := NewGrant(p, source, now)];
      denials := denials - {p};
      audit.LogPermissionGranted(p, source, now);
    }

    /** `deny`: drops any grant and records the denial. */
    method Deny(p: Permission, now: int)
      requires Valid()
      modifies this, audit
      ensures Valid()
      ensures grants == old(grants) - {p}
      ensures denials == old(denials) + {p}
      ensures audit.entries == old(audit.entries) + [AuditEntry(now, PermissionDenied(p), "")]
    {
      grants := grants - {p};
      denials := denials + {p};
      audit.LogPermissionDenied(p, now);
    }

    /** `revoke`: forgets both the grant and the denial. */
    method Revoke(p: Permission, now: int)
      requires Valid()
      modifies this, audit
      ensures Valid()
      ensures grants == old(grants) - {p}
      ensures denials == old(denials) - {p}
      ensures audit.entries == old(audit.entries) + [AuditEntry(now, PermissionRevoked(p), "")]
    {
      grants := grants - {p};
      denials := denials - {p};
      audit.LogPermissionRevoked(p, now);
    }

    /** `apply_preset`: grants every permission of the preset, in order, from `source`. */
    method ApplyPreset(preset: Preset, source: GrantSource, now: int)
      requires Valid()
      modifies this, audit
      ensures Valid()
      ensures forall p :: p in PresetPermissions(preset) ==> IsGranted(p, now) && grants[p] == NewGrant(p, source, now)
      ensures forall p :: p !in PresetPermissions(preset) ==>
        (p in grants <==> p in old(grants)) && (p in grants ==> grants[p] == old(grants)[p])
      ensures denials == old(denials) - Granted(preset)
      ensures audit.entries == old(audit.entries) + GrantEntries(PresetPermissions(preset), source, now)
    {
      GrantAll(PresetPermissions(preset), source, now);
    }

    /** The loop of `apply_preset`: `grant` for each permission of `ps`, in order. */
    method GrantAll(ps: seq<Permission>, source: GrantSource, now: int)
      requires Valid()
      modifies this, audit
      ensures Valid()
      ensures grants == Granting(old(grants), ps, source, now)
      ensures forall p :: p in ps ==> IsGranted(p, now) && grants[p] == NewGrant(p, source, now)
      ensures forall p :: p !in ps ==>
        (p in grants <==> p in old(grants)) && (p in grants ==> grants[p] == old(grants)[p])
      ensures denials == old(denials) - Members(ps)
      ensures audit.entries == old(audit.entries) + GrantEntries(ps, source, now)
    {
      ghost var g0, d0, e0 := grants, denials, audit.entries;
      for i := 0 to |ps|
        invariant Valid()
        invariant grants == Granting(g0, ps[..i], source, now)
        invariant denials == d0 - Members(ps[..i])
        invariant audit.entries == e0 + GrantEntries(ps[..i], source, now)
      {
        GrantingSnoc(g0, ps, i, source, now);
        Grant(ps[i], source, now);
      }
      assert ps[..|ps|] == ps;
      GrantingEffect(g0, ps, source, now);
    }

    /**
     * `granted_permissions`: each live grant once. The source walks a hash
     * map, so the order is left open here too.
     */
    method GrantedPermissions(now: int) returns (r: seq<Permission>)
      ensures forall p :: p in r <==> IsGranted(p, now)
      ensures Seqs.Distinct(r)
    {
      r := [];
      var rest := grants.Keys;
      while rest != {}
        invariant rest <= grants.Keys
        invariant forall p :: p in r <==> p in grants && p !in rest && !IsExpired(grants[p], now)
        invariant Seqs.Distinct(r)
        decreases |rest|
      {
        var p :| p in rest;
        if !IsExpired(grants[p], now) {
          r := r + [p];
        }
        rest := rest - {p};
      }
    }

    /** `denied_permissions`: each denial once, in an order left open. */
    method DeniedPermissions() returns (r: seq<Permission>)
      ensures forall p :: p in r <==> p in denials
      ensures Seqs.Distinct(r) && |r| == |denials|
    {
      r := [];
      var rest := denials;
      while rest != {}
        invariant rest <= denials
        invariant forall p :: p in r <==> p in denials && p !in rest
        invariant Seqs.Distinct(r)
        decreases |rest|
      {
        var p :| p in rest;
        r := r + [p];
        rest := rest - {p};
      }
      Seqs.DistinctSize(r);
      assert (set p | p in r) == denials;
    }

    /** `get_usage_stats`: present exactly when a grant exists, lapsed or not. */
    function UsageStatsOf(p: Permission): (r: Option<UsageStats>)
      reads this
      ensures r.Some? <==> p in grants
      ensures r.Some? ==> r.value.useCount == grants[p].useCount && r.value.lastUsed == grants[p].lastUsed
    {
      if p in grants then
        var g := grants[p];
        Some(UsageStats(g.useCount, g.lastUsed, g.grantedAt, g.grantedBy))
      else None
    }
  }

  /**
   * A grant followed by two requests: both are allowed and the usage
   * statistics count two uses.
   */
  method UsageTracking(now: int) returns (first: Result<(), PermissionError>, second: Result<(), PermissionError>, uses: nat)
    ensures first == Ok(()) && second == Ok(()) && uses == 2
  {
    var m := new PermissionManager();
    m.Grant(ScanBrokers, UserExplicit, now);
    first := m.Request(ScanBrokers, now);
    second := m.Request(ScanBrokers, now);
    var stats := m.UsageStatsOf(ScanBrokers);
    uses := stats.value.useCount;
  }

  /**
   * Two grants and a denial: the granted list holds exactly the two granted
   * permissions and the denied list exactly the denied one.
   */
  method ListPermissions(now: int) returns (granted: seq<Permission>, denied: seq<Permission>)
    ensures |granted| == 2 && ScanBrokers in granted && UseLlmLocal in granted
    ensures denied == [UseLlmCloud]
  {
    var m := new PermissionManager();
    m.Grant(ScanBrokers, UserExplicit, now);
    m.Grant(UseLlmLocal, UserExplicit, now);
    m.Deny(UseLlmCloud, now);
    assert m.grants.Keys == {ScanBrokers, UseLlmLocal};
    assert m.denials == {UseLlmCloud};
    granted := m.GrantedPermissions(now);
    Seqs.DistinctPair(granted, ScanBrokers, UseLlmLocal);
    denied := m.DeniedPermissions();
    assert denied[0] in m.denials;
  }

  /** A grant after a denial overrides it: the permission is granted and no longer denied. */
  method GrantOverridesDeny(now: int) returns (deniedFirst: bool, grantedAfter: bool, deniedAfter: bool)
    ensures deniedFirst && grantedAfter && !deniedAfter
  {
    var m := new PermissionManager();
    m.Deny(ScanBrokers, now);
    deniedFirst := m.IsDenied(ScanBrokers);
    m.Grant(ScanBrokers, UserExplicit, now);
    grantedAfter := m.IsGranted(ScanBrokers, now);
    deniedAfter := m.IsDenied(ScanBrokers);
  }
}
