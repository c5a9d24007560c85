/**
 * The human-approval gate (sdk/python/e4a_sdk/gate_engine.py): a table of
 * gates keyed by identifier, each a small state machine
 * pending -> approved | rejected, driven by votes of its required approvers.
 * A gate's payload is an opaque snapshot of type P.
 */
module Gates {
  import opened Common

  datatype Gate<P> = Gate(
    gateId: string,
    mandateId: string,
    status: GateStatus,
    requiredApprovers: seq<string>,
    approvals: seq<string>,
    rejections: seq<string>,
    createdAt: string,
    expiresAt: Option<int>,   // a deadline in clock seconds; None when the gate never expires
    payload: P)

  /** The gate `create_gate` builds: pending, no votes, expiring only for a non-zero lifetime. */
  function NewGate<P>(gateId: string, mandateId: string, requiredApprovers: seq<string>, payload: P,
                      expiresInSeconds: Option<int>, clock: Clock): (g: Gate<P>)
    ensures g.gateId == gateId && g.mandateId == mandateId && g.payload == payload
    ensures g.requiredApprovers == requiredApprovers
    ensures g.status == Pending && g.approvals == [] && g.rejections == []
    ensures g.expiresAt.Some? <==> expiresInSeconds.Some? && expiresInSeconds.value != 0
    ensures g.expiresAt.Some? ==> g.expiresAt.value == clock.seconds + expiresInSeconds.value
    ensures g.createdAt == clock.iso
  {
    var expiresAt := if expiresInSeconds.Some? && expiresInSeconds.value != 0
                     then Some(clock.seconds + expiresInSeconds.value) else None;
    Gate(gateId, mandateId, Pending, requiredApprovers, [], [], clock.iso, expiresAt, payload)
  }

  /**
   * The invariant every stored gate keeps: votes come only from required
   * approvers, nobody has both approved and rejected, nobody is listed twice,
   * and a gate that is still pending has no rejection.
   */
  ghost predicate WellFormed<P>(g: Gate<P>) {
    && (forall a :: a in g.approvals ==> a in g.requiredApprovers)
    && (forall a :: a in g.rejections ==> a in g.requiredApprovers)
    && (forall a :: a in g.approvals ==> a !in g.rejections)
    && NoDup(g.approvals)
    && NoDup(g.rejections)
    && (g.status == Pending ==> g.rejections == [])
  }

  /** The deadline has passed (strictly) at `now`. */
  predicate Expired<P>(g: Gate<P>, now: int) {
    g.expiresAt.Some? && now > g.expiresAt.value
  }

  /** The approval test of the source: distinct required approvers who approved, against the LENGTH of the list. */
  predicate Unanimous<P>(g: Gate<P>) {
    |SetOf(g.requiredApprovers) * SetOf(g.approvals)| >= |g.requiredApprovers|
  }

  /** Some required approver has rejected. */
  predicate RequiredRejection<P>(g: Gate<P>) {
    exists a :: a in g.requiredApprovers && a in g.rejections
  }

  /**
   * `_check_resolution`: a terminal gate is left alone; a pending one becomes
   * rejected when expired, else approved when unanimous, else rejected when a
   * required approver rejected, else stays pending.
   */
  function Resolve<P>(g: Gate<P>, now: int): (r: Gate<P>)
    ensures r == g.(status := r.status)
    ensures g.status != Pending ==> r == g
  {
    if g.status != Pending then g
    else if Expired(g, now) then g.(status := Rejected)
    else if Unanimous(g) then g.(status := Approved)
    else if RequiredRejection(g) then g.(status := Rejected)
    else g
  }

  /** `approve_gate` on one gate: the check for terminal status, then authorisation, then the vote and resolution. */
  function ApproveVote<P>(g: Gate<P>, approver: string, now: int): (r: Result<Gate<P>>)
    ensures g.status != Pending ==> r == Failure(NotPending(g.status))
    ensures g.status == Pending && approver !in g.requiredApprovers ==> r == Failure(Unauthorized(approver))
    ensures r.Success? ==> (r.value.gateId == g.gateId && r.value.mandateId == g.mandateId &&
      r.value.requiredApprovers == g.requiredApprovers && r.value.payload == g.payload &&
      r.value.expiresAt == g.expiresAt && approver in r.value.approvals)
  {
    if g.status != Pending then Failure(NotPending(g.status))
    else if approver !in g.requiredApprovers then Failure(Unauthorized(approver))
    else
      var approvals := if approver in g.approvals then g.approvals else g.approvals + [approver];
      var rejections := if approver in g.rejections then RemoveFirst(g.rejections, approver) else g.rejections;
      Success(Resolve(g.(approvals := approvals, rejections := rejections), now))
  }

  /** `reject_gate` on one gate: the mirror image of `ApproveVote`. */
  function RejectVote<P>(g: Gate<P>, rejector: string, now: int): (r: Result<Gate<P>>)
    ensures g.status != Pending ==> r == Failure(NotPending(g.status))
    ensures g.status == Pending && rejector !in g.requiredApprovers ==> r == Failure(Unauthorized(rejector))
    ensures r.Success? ==> (r.value.gateId == g.gateId && r.value.mandateId == g.mandateId &&
      r.value.requiredApprovers == g.requiredApprovers && r.value.payload == g.payload &&
      r.value.expiresAt == g.expiresAt && rejector in r.value.rejections)
  {
    if g.status != Pending then Failure(NotPending(g.status))
    else if rejector !in g.requiredApprovers then Failure(Unauthorized(rejector))
    else
      var rejections := if rejector in g.rejections then g.rejections else g.rejections + [rejector];
      var approvals := if rejector in g.approvals then RemoveFirst(g.approvals, rejector) else g.approvals;
      Success(Resolve(g.(approvals := approvals, rejections := rejections), now))
  }

  // ------------------------------------------------------------------
  // Properties of the state machine
  // ------------------------------------------------------------------

  /** Terminal states are final: resolution leaves them alone and every vote on them fails, naming the status. */
  lemma TerminalIsFinal<P>(g: Gate<P>, actor: string, now: int)
    requires g.status != Pending
    ensures Resolve(g, now) == g
    ensures ApproveVote(g, actor, now) == Failure(NotPending(g.status))
    ensures RejectVote(g, actor, now) == Failure(NotPending(g.status))
  {
  }

  /**
   * The approval test means unanimity: it holds only when every required
   * approver has approved, and, when the list has no duplicates, it holds
   * exactly then.
   */
  lemma UnanimousMeaning<P>(g: Gate<P>)
    ensures Unanimous(g) ==> forall a :: a in g.requiredApprovers ==> a in g.approvals
    ensures NoDup(g.requiredApprovers) && (forall a :: a in g.requiredApprovers ==> a in g.approvals) ==> Unanimous(g)
  {
    var req, app := SetOf(g.requiredApprovers), SetOf(g.approvals);
    SetOfSize(g.requiredApprovers);
    SubsetSize(req * app, req);
    if Unanimous(g) {
      SubsetFull(req * app, req);
      forall a | a in g.requiredApprovers ensures a in g.approvals {
        assert a in req;
      }
    }
    if NoDup(g.requiredApprovers) && (forall a :: a in g.requiredApprovers ==> a in g.approvals) {
      assert req * app == req;
    }
  }

  /** A gate whose required approvers have a voter missing from `approvals` is not unanimous. */
  lemma NotUnanimousWithout<P>(g: Gate<P>, a: string)
    requires a in g.requiredApprovers && a !in g.approvals
    ensures !Unanimous(g)
  {
    UnanimousMeaning(g);
  }

  /** A successful approval keeps the gate well formed. */
  lemma ApprovePreservesWellFormed<P>(g: Gate<P>, approver: string, now: int)
    requires WellFormed(g)
    requires ApproveVote(g, approver, now).Success?
    ensures WellFormed(ApproveVote(g, approver, now).value)
  {
    var approvals := if approver in g.approvals then g.approvals else g.approvals + [approver];
    assert NoDup(approvals) by {
      if approver !in g.approvals {
        forall i, j | 0 <= i < j < |approvals| ensures approvals[i] != approvals[j] {
          if j == |g.approvals| {
            assert approvals[i] == g.approvals[i];
          } else {
            assert approvals[i] == g.approvals[i] && approvals[j] == g.approvals[j];
          }
        }
      }
    }
  }

  /** A successful rejection keeps the gate well formed. */
  lemma RejectPreservesWellFormed<P>(g: Gate<P>, rejector: string, now: int)
    requires WellFormed(g)
    requires RejectVote(g, rejector, now).Success?
    ensures WellFormed(RejectVote(g, rejector, now).value)
  {
    var approvals := if rejector in g.approvals then RemoveFirst(g.approvals, rejector) else g.approvals;
    RemoveFirstNoDup(g.approvals, rejector);
    assert g.rejections == [];
    assert rejector !in approvals;
    var r := RejectVote(g, rejector, now).value;
    assert r.rejections == [rejector];
    RejectResolvesRejected(g, rejector, now);
  }

  /**
   * A vote by X moves X into one list and out of the other, and leaves every
   * other voter where they were.
   */
  lemma VoteMovesVoter<P>(g: Gate<P>, actor: string, now: int)
    requires WellFormed(g)
    ensures ApproveVote(g, actor, now).Success? ==>
      var r := ApproveVote(g, actor, now).value;
      actor in r.approvals && actor !in r.rejections &&
      (forall b :: b != actor ==> (b in r.approvals <==> b in g.approvals) && (b in r.rejections <==> b in g.rejections))
    ensures RejectVote(g, actor, now).Success? ==>
      var r := RejectVote(g, actor, now).value;
      actor in r.rejections && actor !in r.approvals &&
      (forall b :: b != actor ==> (b in r.approvals <==> b in g.approvals) && (b in r.rejections <==> b in g.rejections))
  {
    RemoveFirstNoDup(g.approvals, actor);
    RemoveFirstNoDup(g.rejections, actor);
  }

  /** A successful rejection always leaves the gate rejected: the rejector is then missing from the approvals. */
  lemma RejectResolvesRejected<P>(g: Gate<P>, rejector: string, now: int)
    requires WellFormed(g)
    requires RejectVote(g, rejector, now).Success?
    ensures RejectVote(g, rejector, now).value.status == Rejected
  {
    var approvals := if rejector in g.approvals then RemoveFirst(g.approvals, rejector) else g.approvals;
    RemoveFirstNoDup(g.approvals, rejector);
    var rejections := if rejector in g.rejections then g.rejections else g.rejections + [rejector];
    var voted := g.(approvals := approvals, rejections := rejections);
    NotUnanimousWithout(voted, rejector);
    assert RequiredRejection(voted);
  }

  /** An approval that resolves the gate to approved happens only before the deadline and after every required approver approved. */
  lemma ApprovedMeansUnanimous<P>(g: Gate<P>, approver: string, now: int)
    requires ApproveVote(g, approver, now).Success?
    requires ApproveVote(g, approver, now).value.status == Approved
    ensures !Expired(g, now)
    ensures forall a :: a in g.requiredApprovers ==> a in ApproveVote(g, approver, now).value.approvals
  {
    UnanimousMeaning(ApproveVote(g, approver, now).value);
  }

  /**
   * The converse, for any list of distinct approvers: before the deadline, the
   * approval that completes the required list approves the gate.
   */
  lemma ApproveCompletes<P>(g: Gate<P>, approver: string, now: int)
    requires WellFormed(g) && g.status == Pending && !Expired(g, now)
    requires approver in g.requiredApprovers && NoDup(g.requiredApprovers)
    requires forall a :: a in g.requiredApprovers && a != approver ==> a in g.approvals
    ensures ApproveVote(g, approver, now).Success?
    ensures ApproveVote(g, approver, now).value.status == Approved
  {
    var approvals := if approver in g.approvals then g.approvals else g.approvals + [approver];
    var voted := g.(approvals := approvals);
    assert g.rejections == [];
    UnanimousMeaning(voted);
    assert Resolve(voted, now) == voted.(status := Approved);
  }

  /**
   * Before the deadline, an approval that leaves some other required approver
   * missing keeps the gate pending.
   */
  lemma ApproveStaysPending<P>(g: Gate<P>, approver: string, missing: string, now: int)
    requires WellFormed(g) && g.status == Pending && !Expired(g, now)
    requires approver in g.requiredApprovers
    requires missing in g.requiredApprovers && missing != approver && missing !in g.approvals
    ensures ApproveVote(g, approver, now).Success?
    ensures ApproveVote(g, approver, now).value.status == Pending
  {
    var approvals := if approver in g.approvals then g.approvals else g.approvals + [approver];
    var voted := g.(approvals := approvals);
    assert g.rejections == [];
    NotUnanimousWithout(voted, missing);
    assert !RequiredRejection(voted);
    assert Resolve(voted, now) == voted;
  }

  /** Expiry comes first: once past the deadline, any successful vote rejects the gate, even one that completes the approvals. */
  lemma ExpiredVoteRejects<P>(g: Gate<P>, actor: string, now: int)
    requires Expired(g, now)
    ensures ApproveVote(g, actor, now).Success? ==> ApproveVote(g, actor, now).value.status == Rejected
    ensures RejectVote(g, actor, now).Success? ==> RejectVote(g, actor, now).value.status == Rejected
  {
  }

  /** Two distinct required approvers: the first approval leaves the gate pending, the second approves it. */
  lemma TwoApprovals<P>(g: Gate<P>, a: string, b: string, now: int)
    requires g.status == Pending && g.requiredApprovers == [a, b] && a != b
    requires g.approvals == [] && g.rejections == [] && !Expired(g, now)
    ensures ApproveVote(g, a, now).Success?
    ensures ApproveVote(g, a, now).value.status == Pending
    ensures ApproveVote(ApproveVote(g, a, now).value, b, now).Success?
    ensures ApproveVote(ApproveVote(g, a, now).value, b, now).value.status == Approved
  {
    var g1 := g.(approvals := [a]);
    FirstOfTwo(g, a, b, now);
    assert ApproveVote(g, a, now) == Success(g1);
    SecondOfTwo(g1, a, b, now);
  }

  lemma FirstOfTwo<P>(g: Gate<P>, a: string, b: string, now: int)
    requires g.status == Pending && g.requiredApprovers == [a, b] && a != b
    requires g.approvals == [] && g.rejections == [] && !Expired(g, now)
    ensures ApproveVote(g, a, now) == Success(g.(approvals := [a]))
  {
    var g1 := g.(approvals := [a]);
    assert g.approvals + [a] == [a];
    NotUnanimousWithout(g1, b);
    assert !RequiredRejection(g1);
    assert Resolve(g1, now) == g1;
  }

  lemma SecondOfTwo<P>(g1: Gate<P>, a: string, b: string, now: int)
    requires g1.status == Pending && g1.requiredApprovers == [a, b] && a != b
    requires g1.approvals == [a] && g1.rejections == [] && !Expired(g1, now)
    ensures ApproveVote(g1, b, now) == Success(g1.(approvals := [a, b], status := Approved))
  {
    var g2 := g1.(approvals := [a, b]);
    assert g1.approvals + [b] == [a, b];
    UnanimousMeaning(g2);
    assert Resolve(g2, now) == g2.(status := Approved);
  }

  /**
   * Because the test compares against the length of the required list, a
   * duplicated required approver can never approve the gate alone: it stays pending.
   */
  lemma DuplicateRequiredBlocks<P>(g: Gate<P>, a: string, now: int)
    requires g.status == Pending && g.requiredApprovers == [a, a]
    requires g.rejections == [] && !Expired(g, now)
    ensures ApproveVote(g, a, now).Success?
    ensures ApproveVote(g, a, now).value.status == Pending
  {
    var approvals := if a in g.approvals then g.approvals else g.approvals + [a];
    assert SetOf(g.requiredApprovers) == {a};
    assert SetOf(g.requiredApprovers) * SetOf(approvals) <= {a};
    SubsetSize(SetOf(g.requiredApprovers) * SetOf(approvals), {a});
  }

  /**
   * In general: a required list with a repeated approver never passes the
   * approval test, so no vote ever resolves such a gate to approved.
   */
  lemma DuplicateRequiredNeverApproves<P>(g: Gate<P>, actor: string, now: int)
    requires !NoDup(g.requiredApprovers)
    ensures !Unanimous(g)
    ensures ApproveVote(g, actor, now).Success? ==> ApproveVote(g, actor, now).value.status != Approved
    ensures RejectVote(g, actor, now).Success? ==> RejectVote(g, actor, now).value.status != Approved
  {
    SetOfSizeDup(g.requiredApprovers);
    forall h: Gate<P> | h.requiredApprovers == g.requiredApprovers ensures !Unanimous(h) {
      SubsetSize(SetOf(h.requiredApprovers) * SetOf(h.approvals), SetOf(h.requiredApprovers));
    }
  }

  /** The first gate, in creation order, that guards `mandateId`. */
  function FirstGateFor<P>(order: seq<string>, gates: map<string, Gate<P>>, mandateId: string): Option<Gate<P>>
    requires forall id :: id in order ==> id in gates
  {
    FirstMatch(order, gates, (g: Gate<P>) => g.mandateId == mandateId)
  }

  // ------------------------------------------------------------------
  // The gate table
  // ------------------------------------------------------------------

  /** `GateEngine`: the gate table; `order` is the dictionary's insertion order. */
  class GateEngine<P> {
    var gates: map<string, Gate<P>>
    var order: seq<string>
    /** The gate JSON schema, as a predicate on gates. */
    const schema: Gate<P> -> bool

    ghost predicate Valid()
      reads this
    {
      && NoDup(order)
      && (forall id :: id in order <==> id in gates)
      && (forall id :: id in gates ==> gates[id].gateId == id && WellFormed(gates[id]))
    }

    constructor (schema: Gate<P> -> bool)
      ensures Valid() && this.schema == schema
      ensures gates == map[] && order == []
    {
      this.schema := schema;
      gates := map[];
      order := [];
    }

    /**
     * Builds a pending gate under the fresh identifier `gateId` and stores it
     * when it passes the schema; a gate that fails is not stored.
     */
    method CreateGate(mandateId: string, requiredApprovers: seq<string>, payload: P,
                      expiresInSeconds: Option<int>, gateId: string, clock: Clock) returns (r: Result<Gate<P>>)
      requires Valid() && gateId !in gates
      modifies this
      ensures Valid()
      ensures var g := NewGate(gateId, mandateId, requiredApprovers, payload, expiresInSeconds, clock);
        if schema(g) then r == Success(g) && gates == old(gates)[gateId := g] && order == old(order) + [gateId]
        else r == Failure(ValidationFailed) && gates == old(gates) && order == old(order)
    {
      var expiresAt := None;
      if expiresInSeconds.Some? && expiresInSeconds.value != 0 {
        expiresAt := Some(clock.seconds + expiresInSeconds.value);
      }
      var gate := Gate(gateId, mandateId, Pending, requiredApprovers, [], [], clock.iso, expiresAt, payload);
      if !schema(gate) {
        return Failure(ValidationFailed);
      }
      gates := gates[gateId := gate];
      order := order + [gateId];
      assert NoDup(order) by {
        forall i, j | 0 <= i < j < |order| ensures order[i] != order[j] {
          if j == |order| - 1 { assert order[i] in old(order); }
        }
      }
      r := Success(gate);
    }

    /** The stored gate, unchanged, or NotFound. */
    method GetGateStatus(gateId: string) returns (r: Result<Gate<P>>)
      ensures gateId in gates ==> r == Success(gates[gateId])
      ensures gateId !in gates ==> r == Failure(NotFound)
    {
      if gateId !in gates {
        return Failure(NotFound);
      }
      r := Success(gates[gateId]);
    }

    /** The first gate in creation order that guards `mandateId`, or None when no gate does. */
    method GetGateByMandateId(mandateId: string) returns (r: Option<Gate<P>>)
      requires Valid()
      ensures r == FirstGateFor(order, gates, mandateId)
      ensures r.None? <==> forall id :: id in gates ==> gates[id].mandateId != mandateId
      ensures r.Some? ==> r.value.gateId in gates && gates[r.value.gateId] == r.value && r.value.mandateId == mandateId
    {
      var i := 0;
      while i < |order|
        invariant 0 <= i <= |order|
        invariant FirstGateFor(order, gates, mandateId) == FirstGateFor(order[i..], gates, mandateId)
      {
        var gate := gates[order[i]];
        if gate.mandateId == mandateId {
          r := Some(gate);
          FirstGateForSpec(order, gates, mandateId);
          return;
        }
        assert order[i..][1..] == order[i + 1..];
        i := i + 1;
      }
      r := None;
      FirstGateForSpec(order, gates, mandateId);
    }

    /** `_check_resolution`: re-evaluates the stored gate's status and changes nothing else. */
    method CheckResolution(gateId: string, now: int)
      requires gateId in gates
      modifies this
      ensures gates == old(gates)[gateId := Resolve(old(gates)[gateId], now)]
      ensures order == old(order)
    {
      var gate := gates[gateId];
      if gate.status != Pending {
        return;
      }
      if gate.expiresAt.Some? && now > gate.expiresAt.value {
        gates := gates[gateId := gate.(status := Rejected)];
        return;
      }
      var approvedCount := |SetOf(gate.requiredApprovers) * SetOf(gate.approvals)|;
      if approvedCount >= |gate.requiredApprovers| {
        gates := gates[gateId := gate.(status := Approved)];
        return;
      }
      if exists a :: a in gate.requiredApprovers && a in gate.rejections {
        gates := gates[gateId := gate.(status := Rejected)];
        return;
      }
    }

    /**
     * `approve_gate`: NotFound, NotPending(status) and Unauthorized leave the
     * table unchanged; otherwise the vote is recorded and the gate resolved.
     */
    method ApproveGate(gateId: string, approverId: string, clock: Clock) returns (r: Result<Gate<P>>)
      requires Valid()
      modifies this
      ensures Valid() && order == old(order)
      ensures gateId !in old(gates) ==> r == Failure(NotFound) && gates == old(gates)
      ensures gateId in old(gates) ==>
        r == ApproveVote(old(gates)[gateId], approverId, clock.seconds) &&
        gates == if r.Success? then old(gates)[gateId := r.value] else old(gates)
    {
      if gateId !in gates {
        return Failure(NotFound);
      }
      var gate := gates[gateId];
      if gate.status != Pending {
        return Failure(NotPending(gate.status));
      }
      if approverId !in gate.requiredApprovers {
        return Failure(Unauthorized(approverId));
      }
      ghost var before := gate;
      if approverId !in gate.approvals {
        gate := gate.(approvals := gate.approvals + [approverId]);
      }
      if approverId in gate.rejections {
        gate := gate.(rejections := RemoveFirst(gate.rejections, approverId));
      }
      assert gate == before.(
        approvals := if approverId in before.approvals then before.approvals else before.approvals + [approverId],
        rejections := if approverId in before.rejections then RemoveFirst(before.rejections, approverId) else before.rejections);
      gates := gates[gateId := gate];
      CheckResolution(gateId, clock.seconds);
      assert gates == old(gates)[gateId := ApproveVote(before, approverId, clock.seconds).value];
      ApprovePreservesWellFormed(before, approverId, clock.seconds);
      r := Success(gates[gateId]);
    }

    /** `reject_gate`: the same failures as `ApproveGate`; a successful rejection leaves the gate rejected. */
    method RejectGate(gateId: string, rejectorId: string, clock: Clock) returns (r: Result<Gate<P>>)
      requires Valid()
      modifies this
      ensures Valid() && order == old(order)
      ensures gateId !in old(gates) ==> r == Failure(NotFound) && gates == old(gates)
      ensures gateId in old(gates) ==>
        r == RejectVote(old(gates)[gateId], rejectorId, clock.seconds) &&
        gates == if r.Success? then old(gates)[gateId := r.value] else old(gates)
      ensures r.Success? ==> r.value.status == Rejected
    {
      if gateId !in gates {
        return Failure(NotFound);
      }
      var gate := gates[gateId];
      if gate.status != Pending {
        return Failure(NotPending(gate.status));
      }
      if rejectorId !in gate.requiredApprovers {
        return Failure(Unauthorized(rejectorId));
      }
      ghost var before := gate;
      if rejectorId !in gate.rejections {
        gate := gate.(rejections := gate.rejections + [rejectorId]);
      }
      if rejectorId in gate.approvals {
        gate := gate.(approvals := RemoveFirst(gate.approvals, rejectorId));
      }
      assert gate == before.(
        rejections := if rejectorId in before.rejections then before.rejections else before.rejections + [rejectorId],
        approvals := if rejectorId in before.approvals then RemoveFirst(before.approvals, rejectorId) else before.approvals);
      gates := gates[gateId := gate];
      CheckResolution(gateId, clock.seconds);
      assert gates == old(gates)[gateId := RejectVote(before, rejectorId, clock.seconds).value];
      RejectPreservesWellFormed(before, rejectorId, clock.seconds);
      RejectResolvesRejected(before, rejectorId, clock.seconds);
      r := Success(gates[gateId]);
    }
  }

  /** What `FirstGateFor` finds: nothing exactly when no gate guards the mandate, otherwise a stored gate that does. */
  lemma FirstGateForSpec<P>(order: seq<string>, gates: map<string, Gate<P>>, mandateId: string)
    requires forall id :: id in order <==> id in gates
    requires forall id :: id in gates ==> gates[id].gateId == id
    ensures FirstGateFor(order, gates, mandateId).None? <==> forall id :: id in gates ==> gates[id].mandateId != mandateId
    ensures FirstGateFor(order, gates, mandateId).Some? ==>
      var g := FirstGateFor(order, gates, mandateId).value;
      g.gateId in gates && gates[g.gateId] == g && g.mandateId == mandateId
  {
    var p := (g: Gate<P>) => g.mandateId == mandateId;
    FirstMatchSpec(order, gates, p);
    if FirstMatch(order, gates, p).None? {
      forall id | id in gates ensures gates[id].mandateId != mandateId {
        var k :| 0 <= k < |order| && order[k] == id;
        assert !p(gates[order[k]]);
      }
    } else {
      var i :| 0 <= i < |order| && gates[order[i]] == FirstMatch(order, gates, p).value && p(gates[order[i]]);
      assert gates[order[i]].gateId == order[i];
    }
  }
}
