/**
 Emergency leases: the in-memory object (crates/coevo-core/src/lease.rs), the stored row
 (crates/coevo-store/src/repos/lease_repo.rs) and the manager over it
 (crates/coevo-risk/src/lease.rs). The clock is a parameter of every operation that reads it.
 */
module Lease {
  import opened Prelude
  import Canonical
  import Utf8

  datatype LeaseError =
    | LeaseExpiredOrRevoked
    | BudgetExhausted(used: int, budget: int)
    | OutOfScope(urn: string)

  /** `urn` starts with one of the scope prefixes. */
  predicate InScope(scope: seq<string>, urn: string) {
    exists i | 0 <= i < |scope| :: scope[i] <= urn
  }

  /** A URN is in scope exactly when it is one of the scope prefixes followed by some text. */
  lemma InScopeExactly(scope: seq<string>, urn: string)
    ensures InScope(scope, urn) <==> exists i, rest :: 0 <= i < |scope| && urn == scope[i] + rest
  {
    if InScope(scope, urn) {
      var i :| 0 <= i < |scope| && scope[i] <= urn;
      assert urn == scope[i] + urn[|scope[i]|..];
    }
  }

  const TWO_TO_THE_31: nat := 0x8000_0000
  const TWO_TO_THE_32: nat := 0x1_0000_0000

  type u32 = n: nat | n < TWO_TO_THE_32

  /** The cast `n as i32` with which the budget and the count are stored. */
  function AsI32(n: u32): int {
    if n < TWO_TO_THE_31 then n else n - TWO_TO_THE_32
  }

  /** The cast `n as u32` with which a stored number is reported. */
  function AsU32(n: int): int {
    if n < 0 then n + TWO_TO_THE_32 else n
  }

  /** A number is reported as it was before it was stored. */
  lemma CastsUndo(n: u32)
    ensures AsU32(AsI32(n)) == n && 0 - TWO_TO_THE_31 as int <= AsI32(n) < TWO_TO_THE_31
  {
  }

  // ---- The in-memory lease ----

  datatype Lease = Lease(
    leaseId: string,
    agentId: string,
    scope: seq<string>,
    budget: u32,
    used: u32,
    grantedAtMs: nat,
    expiresAtMs: nat,
    monitoringSignature: string,
    diagnosticSignature: string,
    isActive: bool,
    wasRevoked: bool)
  {
    predicate Valid(now: nat) {
      isActive && !wasRevoked && now < expiresAtMs && used < budget
    }
  }

  class EmergencyLease {
    var lease: Lease

    constructor (lease: Lease)
      ensures this.lease == lease
    {
      this.lease := lease;
    }

    /**
     Consumes one operation; the budget error is never the one reported, because validity already
     covers the budget.
     */
    method ConsumeOperation(now: nat) returns (r: Result<(), LeaseError>)
      modifies this
      ensures r.Ok? <==> old(lease).Valid(now)
      ensures r.Err? ==> r.error == LeaseExpiredOrRevoked
      ensures lease == if r.Ok? then old(lease).(used := old(lease).used + 1) else old(lease)
    {
      if !lease.Valid(now) {
        return Err(LeaseExpiredOrRevoked);
      }
      if lease.used >= lease.budget {
        return Err(BudgetExhausted(lease.used, lease.budget));
      }
      lease := lease.(used := lease.used + 1);
      return Ok(());
    }
  }

  // ---- The stored row and its atomic statements ----

  datatype Row = Row(scope: seq<string>, budget: int, used: int, expiresAtMs: nat, isActive: bool, wasRevoked: bool)
  {
    predicate Live() { isActive && !wasRevoked }

    /** The row after `UPDATE .. SET operations_used = operations_used + 1 WHERE ..`. */
    function Consumed(): Row {
      if CanConsume() then this.(used := used + 1) else this
    }

    predicate CanConsume() { Live() && used < budget }

    function Revoked(): Row { this.(isActive := false, wasRevoked := true) }

    /** The row after `expire_all` at this time. */
    function Expired(now: nat): Row {
      if isActive && expiresAtMs < now then this.(isActive := false) else this
    }
  }

  function RowOf(lease: Lease): Row {
    Row(lease.scope, AsI32(lease.budget), AsI32(lease.used), lease.expiresAtMs, true, false)
  }

  /** What one call decides and leaves behind when nothing interferes. */
  function ConsumeAlone(row: Option<Row>, urn: string, now: nat): (Result<(), LeaseError>, Option<Row>) {
    if row.None? || !row.value.Live() then (Err(LeaseExpiredOrRevoked), row)
    else if now >= row.value.expiresAtMs then (Err(LeaseExpiredOrRevoked), Some(row.value.Revoked()))
    else if !InScope(row.value.scope, urn) then (Err(OutOfScope(urn)), row)
    else if row.value.used < row.value.budget then (Ok(()), Some(row.value.Consumed()))
    else (Err(BudgetExhausted(AsU32(row.value.used), AsU32(row.value.budget))), row)
  }

  type Verify = (seq<Utf8.Byte>, string) -> bool

  const MONITORING: string := "monitoring"
  const DIAGNOSTIC: string := "diagnostic"
  const TTL_MS: nat := 15 * 60 * 1000

  /** Both signatures are present and vouch for the role-bound attestation. */
  predicate Attested(verify: Verify, agentId: string, scope: seq<string>, monitoring: string, diagnostic: string) {
    && monitoring != ""
    && diagnostic != ""
    && verify(Canonical.LeaseSigningPayload(agentId, scope, MONITORING), monitoring)
    && verify(Canonical.LeaseSigningPayload(agentId, scope, DIAGNOSTIC), diagnostic)
  }

  class LeaseStore {
    var rows: map<string, Row>

    function RowAt(leaseId: string): Option<Row>
      reads this
    {
      if leaseId in rows then Some(rows[leaseId]) else None
    }

    method FindActive(leaseId: string) returns (row: Option<Row>)
      ensures row == if RowAt(leaseId).Some? && RowAt(leaseId).value.Live() then RowAt(leaseId) else None
    {
      if leaseId in rows && rows[leaseId].isActive && !rows[leaseId].wasRevoked {
        return Some(rows[leaseId]);
      }
      return None;
    }

    method ConsumeOperation(leaseId: string) returns (affected: nat)
      modifies this
      ensures rows.Keys == old(rows.Keys)
      ensures affected == if leaseId in old(rows) && old(rows)[leaseId].CanConsume() then 1 else 0
      ensures forall id | id in rows && (id != leaseId || affected == 0) :: rows[id] == old(rows)[id]
      ensures affected == 1 ==> rows[leaseId] == old(rows)[leaseId].(used := old(rows)[leaseId].used + 1)
    {
      if leaseId in rows && rows[leaseId].CanConsume() {
        rows := rows[leaseId := rows[leaseId].(used := rows[leaseId].used + 1)];
        return 1;
      }
      return 0;
    }

    method Revoke(leaseId: string)
      modifies this
      ensures rows.Keys == old(rows.Keys)
      ensures forall id | id in rows && id != leaseId :: rows[id] == old(rows)[id]
      ensures leaseId in rows ==> rows[leaseId] == old(rows)[leaseId].(isActive := false, wasRevoked := true)
    {
      if leaseId in rows {
        rows := rows[leaseId := rows[leaseId].(isActive := false, wasRevoked := true)];
      }
    }

    /** Ends every active lease that has expired before `now`, and touches no other row. */
    method ExpireAll(now: nat) returns (affected: nat)
      modifies this
      ensures rows.Keys == old(rows.Keys)
      ensures forall id | id in rows ::
        rows[id].isActive <==> (old(rows)[id].isActive && now <= old(rows)[id].expiresAtMs)
      ensures forall id | id in rows :: rows[id] == old(rows)[id].(isActive := rows[id].isActive)
      ensures affected == |set id | id in rows && rows[id] != old(rows)[id]|
      ensures forall id | id in rows :: rows[id] == old(rows)[id].Expired(now)
    {
      ghost var before := rows;
      var swept := set id | id in rows && rows[id].isActive && rows[id].expiresAtMs < now;
      rows := map id | id in rows :: rows[id].(isActive := rows[id].isActive && id !in swept);
      affected := |swept|;
      assert swept == set id | id in rows && rows[id] != before[id];
    }

    /** Stores a lease under its fresh id when both attestations hold, and otherwise stores nothing. */
    method Grant(verify: Verify, leaseId: string, agentId: string, scope: seq<string>, budget: u32,
                 monitoring: string, diagnostic: string, now: nat) returns (r: Result<Lease, LeaseError>)
      requires leaseId !in rows
      modifies this
      ensures r.Ok? <==> Attested(verify, agentId, scope, monitoring, diagnostic)
      ensures r.Ok? ==>
        && r.value == Lease(leaseId, agentId, scope, budget, 0, now, now + TTL_MS, monitoring, diagnostic, true, false)
        && rows == old(rows)[leaseId := RowOf(r.value)]
      ensures r.Err? ==> rows == old(rows) && r.error.OutOfScope?
    {
      if monitoring == "" {
        return Err(OutOfScope("missing monitoring signature"));
      }
      if diagnostic == "" {
        return Err(OutOfScope("missing diagnostic signature"));
      }
      if !verify(Canonical.LeaseSigningPayload(agentId, scope, MONITORING), monitoring) {
        return Err(OutOfScope("invalid monitoring signature"));
      }
      if !verify(Canonical.LeaseSigningPayload(agentId, scope, DIAGNOSTIC), diagnostic) {
        return Err(OutOfScope("invalid diagnostic signature"));
      }
      var lease := Lease(leaseId, agentId, scope, budget, 0, now, now + TTL_MS, monitoring, diagnostic, true, false);
      rows := rows[leaseId := RowOf(lease)];
      return Ok(lease);
    }

    method TryConsume(leaseId: string, urn: string, now: nat) returns (r: Result<(), LeaseError>)
      modifies this
      ensures rows.Keys == old(rows.Keys)
      ensures (r, RowAt(leaseId)) == ConsumeAlone(old(RowAt(leaseId)), urn, now)
      ensures forall id | id in rows && id != leaseId :: rows[id] == old(rows)[id]
    {
      var row := FindActive(leaseId);
      if row.None? {
        return Err(LeaseExpiredOrRevoked);
      }
      if now >= row.value.expiresAtMs {
        Revoke(leaseId);
        return Err(LeaseExpiredOrRevoked);
      }
      if !InScope(row.value.scope, urn) {
        return Err(OutOfScope(urn));
      }
      var consumed := ConsumeOperation(leaseId);
      if consumed == 0 {
        var current := FindActive(leaseId);
        if current.Some? && current.value.used >= current.value.budget {
          return Err(BudgetExhausted(AsU32(current.value.used), AsU32(current.value.budget)));
        }
        return Err(LeaseExpiredOrRevoked);
      }
      return Ok(());
    }
  }

  /** Which verdict an undisturbed call gets, and that only an expired lease and a success change the row. */
  lemma VerdictExactly(row: Row, urn: string, now: nat)
    ensures var (r, after) := ConsumeAlone(Some(row), urn, now);
      && (r == Err(LeaseExpiredOrRevoked) <==> !row.isActive || row.wasRevoked || now >= row.expiresAtMs)
      && (r == Err(OutOfScope(urn))
          <==> row.isActive && !row.wasRevoked && now < row.expiresAtMs && !InScope(row.scope, urn))
      && (r == Err(BudgetExhausted(AsU32(row.used), AsU32(row.budget)))
          <==> row.isActive && !row.wasRevoked && now < row.expiresAtMs && InScope(row.scope, urn)
               && row.used >= row.budget)
      && (r == Ok(())
          <==> row.isActive && !row.wasRevoked && now < row.expiresAtMs && InScope(row.scope, urn)
               && row.used < row.budget)
      && after == Some(
           if r.Ok? then row.(used := row.used + 1)
           else if row.isActive && !row.wasRevoked && now >= row.expiresAtMs then
             row.(isActive := false, wasRevoked := true)
           else row)
  {
    hide InScope;
  }

  // ---- What the dual signature binds ----

  /** No signature vouches for two different byte strings. */
  ghost predicate SingleMessage(verify: Verify) {
    forall m, n, s :: verify(m, s) && verify(n, s) ==> m == n
  }

  /**
   Accepted signatures are accepted for one agent and one scope only, and never with the roles
   swapped or one signature in both places.
   */
  lemma AttestationBinds(verify: Verify, agent: string, scope: seq<string>, agent': string, scope': seq<string>,
                         monitoring: string, diagnostic: string)
    requires SingleMessage(verify) && Attested(verify, agent, scope, monitoring, diagnostic)
    ensures Attested(verify, agent', scope', monitoring, diagnostic) ==> agent == agent' && scope == scope'
    ensures !Attested(verify, agent', scope', diagnostic, monitoring)
    ensures monitoring != diagnostic && monitoring != "" && diagnostic != ""
  {
    hide Canonical.LeaseSigningPayload;
    Canonical.LeasePayloadIdentifies(agent, scope, MONITORING, agent', scope', MONITORING);
    Canonical.LeasePayloadIdentifies(agent, scope, MONITORING, agent', scope', DIAGNOSTIC);
    Canonical.LeasePayloadIdentifies(agent, scope, MONITORING, agent, scope, DIAGNOSTIC);
  }

  // ---- The stored lease against the in-memory lease ----

  /**
   A call on a freshly stored lease succeeds exactly when the in-memory lease is valid and the URN in
   scope, unless the budget does not fit the signed 32-bit column: then the stored lease never pays out.
   */
  lemma FreshLeaseAgreesExactly(lease: Lease, urn: string, now: nat)
    requires lease.used == 0 && lease.isActive && !lease.wasRevoked
    ensures (ConsumeAlone(Some(RowOf(lease)), urn, now).0.Ok? <==> lease.Valid(now) && InScope(lease.scope, urn))
       <==> !(lease.budget >= TWO_TO_THE_31 && now < lease.expiresAtMs && InScope(lease.scope, urn))
  {
  }

  /** One consumption of the in-memory lease by a caller that checks validity and scope first. */
  function ConsumeInMemory(lease: Lease, urn: string, now: nat): (bool, Lease) {
    if lease.Valid(now) && InScope(lease.scope, urn) then (true, lease.(used := lease.used + 1)) else (false, lease)
  }

  datatype Call = Call(urn: string, now: nat)

  /** Which of the calls succeed, and the row they leave behind. */
  function StoredRun(row: Row, calls: seq<Call>): (seq<bool>, Row)
    decreases |calls|
  {
    if calls == [] then ([], row)
    else
      var (r, row') := ConsumeAlone(Some(row), calls[0].urn, calls[0].now);
      var (more, last) := StoredRun(OrElse(row', row), calls[1..]);
      ([r.Ok?] + more, last)
  }

  function InMemoryRun(lease: Lease, calls: seq<Call>): (seq<bool>, Lease)
    decreases |calls|
  {
    if calls == [] then ([], lease)
    else
      var (ok, lease') := ConsumeInMemory(lease, calls[0].urn, calls[0].now);
      var (more, last) := InMemoryRun(lease', calls[1..]);
      ([ok] + more, last)
  }

  /** The row represents the lease; it may already be revoked once the clock has passed the expiry. */
  predicate Represents(row: Row, lease: Lease, now: nat) {
    && row.scope == lease.scope && row.budget == lease.budget && row.used == lease.used
    && row.expiresAtMs == lease.expiresAtMs
    && lease.isActive && !lease.wasRevoked
    && (row.Live() || now >= lease.expiresAtMs)
  }

  predicate ClockNeverGoesBack(calls: seq<Call>, from: nat)
    decreases |calls|
  {
    calls != [] ==> from <= calls[0].now && ClockNeverGoesBack(calls[1..], calls[0].now)
  }

  function LastTime(calls: seq<Call>, from: nat): nat {
    if calls == [] then from else calls[|calls| - 1].now
  }

  /**
   With one caller, stored and in-memory lease agree call by call, for every list of calls, and the
   row at the end represents the lease at the end: scope, budget and count are the same.
   */
  lemma {:induction false} StoredRefinesInMemory(row: Row, lease: Lease, calls: seq<Call>, from: nat)
    requires Represents(row, lease, from) && ClockNeverGoesBack(calls, from)
    ensures StoredRun(row, calls).0 == InMemoryRun(lease, calls).0
    ensures Represents(StoredRun(row, calls).1, InMemoryRun(lease, calls).1, LastTime(calls, from))
    decreases |calls|
  {
    hide InScope;
    if calls == [] {
    } else {
      var urn, now := calls[0].urn, calls[0].now;
      var row' := OrElse(ConsumeAlone(Some(row), urn, now).1, row);
      var lease' := ConsumeInMemory(lease, urn, now).1;
      StoredRefinesInMemory(row', lease', calls[1..], now);
    }
  }

  /** In particular for a lease as granted, while its budget fits the column. */
  lemma GrantedLeaseRefines(lease: Lease, calls: seq<Call>)
    requires lease.used == 0 && lease.isActive && !lease.wasRevoked && lease.budget < TWO_TO_THE_31
    requires ClockNeverGoesBack(calls, 0)
    ensures StoredRun(RowOf(lease), calls).0 == InMemoryRun(lease, calls).0
    ensures StoredRun(RowOf(lease), calls).1.used == InMemoryRun(lease, calls).1.used
  {
    StoredRefinesInMemory(RowOf(lease), lease, calls, 0);
  }

  /** A budget of exactly 2^31 is valid in memory and never pays out of the store. */
  lemma LargeBudgetNeverPays(lease: Lease, urn: string, now: nat)
    requires lease.used == 0 && lease.isActive && !lease.wasRevoked && lease.budget == TWO_TO_THE_31
    requires now < lease.expiresAtMs && InScope(lease.scope, urn)
    ensures ConsumeInMemory(lease, urn, now).0 && ConsumeAlone(Some(RowOf(lease)), urn, now).0.Err?
  {
    FreshLeaseAgreesExactly(lease, urn, now);
  }
}
