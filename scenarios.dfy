/**
 * Client code following the flow of tests/test_gate_engine.py: each method
 * drives the engines through one scenario and states, as assertions the
 * verifier proves from the method contracts alone, what should then hold.
 * The mandate is the two-approver demo of mandate_engine.py rather than the
 * tests' own, and the fee amounts and refused late approval asserted here go
 * beyond what those tests check.
 */
module Scenarios {
  import opened Common
  import opened Records
  import opened Ledger
  import opened Gates
  import opened Mandates

  const Admin := "human-admin"
  const Security := "human-security"

  /** A mandate of 1000.0 that needs two approvers, with fee fractions 0.01, 0.02 and 0.03. */
  function NeedsApproval(): Mandate {
    var fees := FeeDistribution(Some(0.01), Some(0.02), Some(0.03));
    var intent := Intent("deploy critical system", "system deployed", "urgent",
                         "ensure operational continuity", [Admin, Security]);
    Mandate(None, Some("did:example:charlie"), Some("did:example:diana"), Some(1000.0), Some("USD"),
            Some(intent), Some(fees), None, false, None, None, None)
  }

  /** A schema every mandate passes, and one every gate passes. */
  predicate AnyMandate(m: Mandate) { true }
  predicate AnyGate(g: Gate<Mandate>) { true }

  /** A new engine with a ledger, holding the mandate above under "m-1". */
  method Setup(c: Clock) returns (engine: MandateEngine, scribe: ScribeAgent)
    ensures fresh(engine) && fresh(engine.gateEngine) && fresh(scribe)
    ensures engine.Valid() && engine.scribe == scribe && engine.gateEngine.schema == AnyGate
    ensures engine.mandates == map["m-1" := Prepare(NeedsApproval(), "m-1", c)]
    ensures RequiredApprovers(engine.mandates["m-1"]) == [Admin, Security]
    ensures engine.gateEngine.gates == map[]
    ensures scribe.log == [Finalize(CreatedEntry(Prepare(NeedsApproval(), "m-1", c)), c)]
  {
    scribe := new ScribeAgent([]);
    engine := new MandateEngine(scribe, AnyMandate, AnyGate);
    CreateStoresUnderId(engine.StoreOf(), NeedsApproval(), "m-1", c, AnyMandate);
    var _ := engine.CreateMandate(NeedsApproval(), "m-1", c);
  }

  /** The first execution of a mandate that needs approval and has no gate: it fails and opens a pending gate. */
  method ExecuteOpensGate(engine: MandateEngine, mandateId: string, freshGateId: string, c: Clock) returns (r: Result<Execution>)
    requires engine.Valid() && freshGateId !in engine.gateEngine.gates
    requires engine.gateEngine.schema == AnyGate
    requires mandateId in engine.mandates && RequiredApprovers(engine.mandates[mandateId]) != []
    requires forall id :: id in engine.gateEngine.gates ==> engine.gateEngine.gates[id].mandateId != mandateId
    modifies engine.gateEngine, engine.scribe
    ensures engine.Valid() && engine.mandates == old(engine.mandates)
    ensures r == Failure(GateCreated(freshGateId))
    ensures engine.gateEngine.gates == old(engine.gateEngine.gates)[freshGateId :=
      NewGate(freshGateId, mandateId, RequiredApprovers(engine.mandates[mandateId]), engine.mandates[mandateId], None, c)]
    ensures engine.scribe != null ==> engine.scribe.log == old(engine.scribe.log)
  {
    ExecuteCreatesGate(engine.StoreOf(), engine.gateEngine.gates, engine.gateEngine.order, mandateId, "system", c,
                       freshGateId, AnyGate);
    r := engine.ExecuteMandate(mandateId, "system", c, freshGateId);
  }

  /**
   * An execution of a mandate that already has a gate: blocked while the gate
   * is pending or rejected, creating nothing; executed once it is approved.
   */
  method ExecuteUnderGate(engine: MandateEngine, mandateId: string, gateId: string, freshGateId: string, c: Clock)
    returns (r: Result<Execution>)
    requires engine.Valid() && freshGateId !in engine.gateEngine.gates
    requires mandateId in engine.mandates && RequiredApprovers(engine.mandates[mandateId]) != []
    requires gateId in engine.gateEngine.gates && engine.gateEngine.gates[gateId].mandateId == mandateId
    modifies engine.gateEngine, engine.scribe
    ensures engine.Valid() && engine.mandates == old(engine.mandates)
    ensures engine.gateEngine.gates == old(engine.gateEngine.gates)
    ensures var status := engine.gateEngine.gates[gateId].status;
      && (status == Pending ==> r == Failure(PendingApproval(gateId)))
      && (status == Rejected ==> r == Failure(ApprovalRejected(gateId)))
      && (status == Approved ==> r == Success(Execution("executed", "system", c.iso, Fees(engine.mandates[mandateId]))))
    ensures engine.scribe != null ==>
      engine.scribe.log == old(engine.scribe.log) + (if r.Success? then [Finalize(ExecutedEntry(mandateId, "system", r.value), c)] else [])
  {
    ExecuteFollowsGate(engine.StoreOf(), engine.gateEngine.gates, engine.gateEngine.order, mandateId, "system", c,
                       freshGateId, engine.gateEngine.schema, gateId);
    r := engine.ExecuteMandate(mandateId, "system", c, freshGateId);
  }

  /** One approval through the mandate engine's gate table; the engine stays valid. */
  method Approve(engine: MandateEngine, gateId: string, approverId: string, c: Clock) returns (r: Result<Gate<Mandate>>)
    requires engine.Valid() && gateId in engine.gateEngine.gates
    modifies engine.gateEngine
    ensures engine.Valid() && engine.mandates == old(engine.mandates)
    ensures r == ApproveVote(old(engine.gateEngine.gates[gateId]), approverId, c.seconds)
    ensures engine.gateEngine.gates == if r.Success? then old(engine.gateEngine.gates)[gateId := r.value] else old(engine.gateEngine.gates)
  {
    ghost var before := engine.gateEngine.gates;
    r := engine.gateEngine.ApproveGate(gateId, approverId, c);
    if r.Success? {
      VotePreservesOneGate(before, gateId, r.value);
    }
  }

  /** One rejection through the mandate engine's gate table; the engine stays valid. */
  method Reject(engine: MandateEngine, gateId: string, approverId: string, c: Clock) returns (r: Result<Gate<Mandate>>)
    requires engine.Valid() && gateId in engine.gateEngine.gates
    modifies engine.gateEngine
    ensures engine.Valid() && engine.mandates == old(engine.mandates)
    ensures r == RejectVote(old(engine.gateEngine.gates[gateId]), approverId, c.seconds)
    ensures engine.gateEngine.gates == if r.Success? then old(engine.gateEngine.gates)[gateId := r.value] else old(engine.gateEngine.gates)
  {
    ghost var before := engine.gateEngine.gates;
    r := engine.gateEngine.RejectGate(gateId, approverId, c);
    if r.Success? {
      VotePreservesOneGate(before, gateId, r.value);
    }
  }

  /** The two approvals: the gate is still pending after the first and approved after the second. */
  method ApproveBoth(engine: MandateEngine, gateId: string, c: Clock)
    requires engine.Valid() && gateId in engine.gateEngine.gates
    requires var g := engine.gateEngine.gates[gateId];
      g.status == Pending && g.requiredApprovers == [Admin, Security] && g.approvals == [] &&
      g.rejections == [] && g.expiresAt.None?
    modifies engine.gateEngine
    ensures engine.Valid() && engine.mandates == old(engine.mandates)
    ensures gateId in engine.gateEngine.gates && engine.gateEngine.gates[gateId].status == Approved
    ensures engine.gateEngine.gates.Keys == old(engine.gateEngine.gates.Keys)
    ensures engine.gateEngine.gates[gateId].mandateId == old(engine.gateEngine.gates[gateId].mandateId)
  {
    ghost var g := engine.gateEngine.gates[gateId];
    TwoApprovals(g, Admin, Security, c.seconds);
    var byAdmin := Approve(engine, gateId, Admin, c);
    assert byAdmin.value.status == Pending;
    var bySecurity := Approve(engine, gateId, Security, c);
    assert bySecurity.value.status == Approved;
  }

  /** The mandate above, stored, executed once: the call fails and opens the pending gate "g-1". */
  method OpenedGate(c: Clock) returns (engine: MandateEngine, scribe: ScribeAgent, first: Result<Execution>)
    ensures fresh(engine) && fresh(engine.gateEngine) && fresh(scribe)
    ensures engine.Valid() && engine.scribe == scribe
    ensures first == Failure(GateCreated("g-1"))
    ensures engine.mandates.Keys == {"m-1"} && RequiredApprovers(engine.mandates["m-1"]) == [Admin, Security]
    ensures Fees(engine.mandates["m-1"]) == FeeSplit(0.01 * 1000.0, 0.02 * 1000.0, 0.03 * 1000.0)
    ensures engine.gateEngine.gates.Keys == {"g-1"}
    ensures var g := engine.gateEngine.gates["g-1"];
      g.mandateId == "m-1" && g.status == Pending && g.requiredApprovers == [Admin, Security] &&
      g.approvals == [] && g.rejections == [] && g.expiresAt.None?
    ensures |scribe.log| == 1 && scribe.log[0].entryType == Some("mandate_created")
  {
    engine, scribe := Setup(c);
    first := ExecuteOpensGate(engine, "m-1", "g-1", c);
  }

  /**
   * The approval flow of the integration test: execution fails and opens a
   * pending gate; a second attempt is still pending; after both approvers
   * approve, execution succeeds with each fee its fraction of the amount, and
   * the ledger holds the creation and the execution, in that order.
   */
  method ApprovalEndToEnd(c: Clock)
  {
    var engine, scribe, first := OpenedGate(c);
    var second := ExecuteUnderGate(engine, "m-1", "g-1", "g-2", c);
    assert second == Failure(PendingApproval("g-1"));
    ApproveBoth(engine, "g-1", c);
    assert engine.gateEngine.gates.Keys == {"g-1"};
    var done := ExecuteUnderGate(engine, "m-1", "g-1", "g-3", c);
    assert done == Success(Execution("executed", "system", c.iso, FeeSplit(0.01 * 1000.0, 0.02 * 1000.0, 0.03 * 1000.0)));
    assert |scribe.log| == 2 && scribe.log[0].entryType == Some("mandate_created");
    assert scribe.log[1] == Finalize(ExecutedEntry("m-1", "system", done.value), c);
  }

  /** A single rejection rejects the gate; a later approval is refused, and execution stays blocked. */
  method RejectionIsFinal(c: Clock)
  {
    var engine, scribe, first := OpenedGate(c);
    var rejected := Reject(engine, "g-1", Admin, c);
    assert rejected.Success? && rejected.value.status == Rejected;
    var late := Approve(engine, "g-1", Security, c);
    assert late == Failure(NotPending(Rejected));
    var again := ExecuteUnderGate(engine, "m-1", "g-1", "g-2", c);
    assert again == Failure(ApprovalRejected("g-1"));
    assert engine.gateEngine.gates.Keys == {"g-1"} && |scribe.log| == 1;
  }
}
