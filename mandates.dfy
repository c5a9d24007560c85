/**
 * The mandate lifecycle (sdk/python/e4a_sdk/mandate_engine.py): a table of
 * mandates keyed by identifier with idempotent creation through a replay
 * nonce, sub-mandates with conditional inheritance, fee splits, and
 * execution that consults the gate table and may create a gate on the way.
 *
 * The table-level behaviour of each operation is a pure step function on
 * the old state (`CreateStep`, `SubmandateStep`, `ExecuteStep`); the methods
 * of `MandateEngine` perform the same steps on the engine's fields and are
 * proved to agree with them.
 */
module Mandates {
  import opened Common
  import opened Records
  import opened Ledger
  import opened Gates

  // ------------------------------------------------------------------
  // Mandate values
  // ------------------------------------------------------------------

  /**
   * `create_mandate`'s defaulting on its copy of the input: an identifier only
   * when `mandate_id` is missing or empty, a creation time only when absent.
   */
  function Prepare(input: Mandate, freshId: string, clock: Clock): (m: Mandate)
    ensures m == input.(mandateId := m.mandateId, createdAt := m.createdAt)
    ensures input.mandateId.Some? && input.mandateId.value != "" ==> m.mandateId == input.mandateId
    ensures input.mandateId.None? || input.mandateId == Some("") ==> m.mandateId == Some(freshId)
    ensures input.createdAt.Some? ==> m.createdAt == input.createdAt
    ensures input.createdAt.None? ==> m.createdAt == Some(clock.iso)
  {
    var withId := if input.mandateId.None? || input.mandateId.value == "" then input.(mandateId := Some(freshId)) else input;
    if withId.createdAt.Some? then withId else withId.(createdAt := Some(clock.iso))
  }

  /** Preparing a prepared mandate changes nothing: an identifier and a creation time, once set, are never replaced. */
  lemma PrepareIdempotent(input: Mandate, id1: string, id2: string, c1: Clock, c2: Clock)
    requires id1 != ""
    ensures Prepare(Prepare(input, id1, c1), id2, c2) == Prepare(input, id1, c1)
  {
  }

  /** The replay nonce when it is truthy (present and non-empty). */
  function ReplayToken(m: Mandate): Option<string> {
    if m.replayNonce.Some? && m.replayNonce.value != "" then m.replayNonce else None
  }

  /**
   * `create_submandate`'s child: the parent reference defaults to the parent's
   * id; policy tags and fee distribution are copied from the parent only when
   * the parent opts into inheritance and only when the child lacks them.
   */
  function Inherit(parent: Mandate, parentId: string, sub: Mandate): (c: Mandate)
    ensures c == sub.(parentMandateId := c.parentMandateId, policyTags := c.policyTags, feeDistribution := c.feeDistribution)
    ensures sub.parentMandateId.Some? ==> c.parentMandateId == sub.parentMandateId
    ensures sub.parentMandateId.None? ==> c.parentMandateId == Some(parentId)
    ensures !parent.inheritValues ==> c.policyTags == sub.policyTags && c.feeDistribution == sub.feeDistribution
    ensures sub.policyTags.Some? ==> c.policyTags == sub.policyTags
    ensures sub.feeDistribution.Some? ==> c.feeDistribution == sub.feeDistribution
    ensures parent.inheritValues && sub.policyTags.None? ==> c.policyTags == Some(parent.policyTags.GetOr([]))
    ensures parent.inheritValues && sub.feeDistribution.None? ==> c.feeDistribution == Some(parent.feeDistribution.GetOr(NoFees))
  {
    var child := if sub.parentMandateId.None? then sub.(parentMandateId := Some(parentId)) else sub;
    if !parent.inheritValues then child
    else
      var withTags := if child.policyTags.None? then child.(policyTags := Some(parent.policyTags.GetOr([]))) else child;
      if withTags.feeDistribution.None? then withTags.(feeDistribution := Some(parent.feeDistribution.GetOr(NoFees)))
      else withTags
  }

  /** A fee fraction, 0 when absent. */
  function ShareOr0(f: Option<real>): real {
    f.GetOr(0.0)
  }

  /** `process_fees` on a mandate: each fraction times the amount, absent values counting as 0. */
  function Fees(m: Mandate): FeeSplit {
    var total := m.amount.GetOr(0.0);
    var fees := m.feeDistribution.GetOr(NoFees);
    FeeSplit(ShareOr0(fees.protocol) * total, ShareOr0(fees.validator) * total, ShareOr0(fees.issuer) * total)
  }

  /**
   * The split is proportional to the amount: the three amounts add up to the
   * sum of the fractions times the amount, so fractions summing to 1 split
   * the whole amount; no amount means no fees.
   */
  lemma FeesProportional(m: Mandate)
    ensures var f := Fees(m); var d := m.feeDistribution.GetOr(NoFees);
      f.protocolAmount + f.validatorAmount + f.issuerAmount
        == (ShareOr0(d.protocol) + ShareOr0(d.validator) + ShareOr0(d.issuer)) * m.amount.GetOr(0.0)
    ensures m.amount.None? ==> Fees(m) == FeeSplit(0.0, 0.0, 0.0)
  {
  }

  // ------------------------------------------------------------------
  // The mandate table and creation
  // ------------------------------------------------------------------

  /** The mandate table; `order` is the dictionary's insertion order. */
  datatype Store = Store(mandates: map<string, Mandate>, order: seq<string>)

  /** A truthy replay nonce is held by at most one stored mandate. */
  ghost predicate NoncesUnique(mandates: map<string, Mandate>) {
    forall i, j :: (i in mandates && j in mandates && ReplayToken(mandates[i]).Some? &&
      mandates[i].replayNonce == mandates[j].replayNonce) ==> i == j
  }

  /** The table invariant: keys listed once in order, each mandate stored under its own id, nonces unique. */
  ghost predicate StoreValid(s: Store) {
    && NoDup(s.order)
    && (forall k :: k in s.order <==> k in s.mandates)
    && (forall k :: k in s.mandates ==> s.mandates[k].mandateId == Some(k))
    && NoncesUnique(s.mandates)
  }

  /** The first stored mandate, in insertion order, whose nonce is `nonce`. */
  function NonceHolder(s: Store, nonce: string): Option<Mandate>
    requires forall k :: k in s.order ==> k in s.mandates
  {
    FirstMatch(s.order, s.mandates, (x: Mandate) => x.replayNonce == Some(nonce))
  }

  /** The `mandate_created` entry handed to the ledger. */
  function CreatedEntry(m: Mandate): Entry {
    NewEntry("mandate_created", m.mandateId.GetOr(""), None, Some(m), None)
  }

  /** The `mandate_executed` entry handed to the ledger. */
  function ExecutedEntry(mandateId: string, executor: string, result: Execution): Entry {
    NewEntry("mandate_executed", mandateId, Some(executor), None, Some(result))
  }

  /** What a create did: its result, the new table, and the entry it handed to the ledger, if any. */
  datatype CreateOutcome = CreateOutcome(result: Result<Mandate>, store: Store, logged: Option<Entry>)

  /**
   * `create_mandate`: prepare the copy, validate it, return a stored mandate
   * with the same truthy nonce if there is one, else store the mandate under
   * its id (overwriting any entry there) and log its creation.
   */
  function CreateStep(s: Store, input: Mandate, freshId: string, clock: Clock, schema: Mandate -> bool): (o: CreateOutcome)
    requires forall k :: k in s.order ==> k in s.mandates
    ensures !schema(Prepare(input, freshId, clock)) ==> o == CreateOutcome(Failure(ValidationFailed), s, None)
    ensures o.result.Success? && o.logged.None? ==> o.store == s
    ensures o.logged.Some? ==> o.result.Success? && o.logged.value == CreatedEntry(o.result.value)
  {
    var m := Prepare(input, freshId, clock);
    if !schema(m) then CreateOutcome(Failure(ValidationFailed), s, None)
    else
      var hit := if ReplayToken(m).Some? then NonceHolder(s, ReplayToken(m).value) else None;
      if hit.Some? then CreateOutcome(Success(hit.value), s, None)
      else
        var id := m.mandateId.value;
        var order := if id in s.mandates then s.order else s.order + [id];
        CreateOutcome(Success(m), Store(s.mandates[id := m], order), Some(CreatedEntry(m)))
  }

  /** `create_submandate`: NotFound for an unknown parent, else the inherited child goes through `CreateStep`. */
  function SubmandateStep(s: Store, parentId: string, sub: Mandate, freshId: string, clock: Clock,
                          schema: Mandate -> bool): (o: CreateOutcome)
    requires forall k :: k in s.order ==> k in s.mandates
    ensures parentId !in s.mandates ==> o == CreateOutcome(Failure(NotFound), s, None)
    ensures parentId in s.mandates ==> o == CreateStep(s, Inherit(s.mandates[parentId], parentId, sub), freshId, clock, schema)
  {
    if parentId !in s.mandates then CreateOutcome(Failure(NotFound), s, None)
    else CreateStep(s, Inherit(s.mandates[parentId], parentId, sub), freshId, clock, schema)
  }

  /** What `NonceHolder` finds, on a valid table: nothing exactly when no mandate has the nonce, else the unique one. */
  lemma NonceHolderSpec(s: Store, nonce: string)
    requires StoreValid(s)
    ensures NonceHolder(s, nonce).None? <==> forall k :: k in s.mandates ==> s.mandates[k].replayNonce != Some(nonce)
    ensures NonceHolder(s, nonce).Some? ==>
      var m := NonceHolder(s, nonce).value;
      m.replayNonce == Some(nonce) && m.mandateId.Some? && m.mandateId.value in s.mandates &&
      s.mandates[m.mandateId.value] == m
  {
    var p := (x: Mandate) => x.replayNonce == Some(nonce);
    FirstMatchSpec(s.order, s.mandates, p);
    if FirstMatch(s.order, s.mandates, p).None? {
      forall k | k in s.mandates ensures s.mandates[k].replayNonce != Some(nonce) {
        var i :| 0 <= i < |s.order| && s.order[i] == k;
        assert !p(s.mandates[s.order[i]]);
      }
    } else {
      var i :| 0 <= i < |s.order| && s.mandates[s.order[i]] == FirstMatch(s.order, s.mandates, p).value;
      assert s.mandates[s.order[i]].mandateId == Some(s.order[i]);
    }
  }

  /** Creation keeps the table invariant; in particular a truthy nonce is never stored twice. */
  lemma CreatePreservesStore(s: Store, input: Mandate, freshId: string, clock: Clock, schema: Mandate -> bool)
    requires StoreValid(s)
    ensures StoreValid(CreateStep(s, input, freshId, clock, schema).store)
  {
    var m := Prepare(input, freshId, clock);
    var o := CreateStep(s, input, freshId, clock, schema);
    if schema(m) && o.logged.Some? {
      var id := m.mandateId.value;
      if ReplayToken(m).Some? {
        NonceHolderSpec(s, ReplayToken(m).value);
      }
      var order := if id in s.mandates then s.order else s.order + [id];
      assert NoDup(order) by {
        if id !in s.mandates {
          forall i, j | 0 <= i < j < |order| ensures order[i] != order[j] {
            if j == |s.order| { assert order[i] in s.order; }
          }
        }
      }
      var t := s.mandates[id := m];
      forall i, j | i in t && j in t && ReplayToken(t[i]).Some? && t[i].replayNonce == t[j].replayNonce
        ensures i == j
      {
        if i != id && j != id {
          assert t[i] == s.mandates[i] && t[j] == s.mandates[j];
        }
      }
    }
  }

  /** A sub-mandate is created like any mandate, so the invariant is kept there too. */
  lemma SubmandatePreservesStore(s: Store, parentId: string, sub: Mandate, freshId: string, clock: Clock,
                                 schema: Mandate -> bool)
    requires StoreValid(s)
    ensures StoreValid(SubmandateStep(s, parentId, sub, freshId, clock, schema).store)
  {
    if parentId in s.mandates {
      CreatePreservesStore(s, Inherit(s.mandates[parentId], parentId, sub), freshId, clock, schema);
    }
  }

  /**
   * Idempotent create: once a mandate with a truthy nonce is stored, a valid
   * request carrying the same nonce returns that stored mandate and changes
   * neither the table nor the ledger.
   */
  lemma ReplayReturnsStored(s: Store, key: string, input: Mandate, freshId: string, clock: Clock,
                            schema: Mandate -> bool)
    requires StoreValid(s) && key in s.mandates
    requires ReplayToken(s.mandates[key]).Some?
    requires Prepare(input, freshId, clock).replayNonce == s.mandates[key].replayNonce
    requires schema(Prepare(input, freshId, clock))
    ensures CreateStep(s, input, freshId, clock, schema) == CreateOutcome(Success(s.mandates[key]), s, None)
  {
    var nonce := ReplayToken(s.mandates[key]).value;
    FirstMatchUnique(s.order, s.mandates, (x: Mandate) => x.replayNonce == Some(nonce), key);
  }

  /** Creating twice with the same truthy nonce yields the first stored mandate both times, and the second call changes nothing. */
  lemma CreateTwiceIdempotent(s: Store, in1: Mandate, id1: string, c1: Clock, in2: Mandate, id2: string, c2: Clock,
                              schema: Mandate -> bool)
    requires StoreValid(s)
    requires CreateStep(s, in1, id1, c1, schema).result.Success?
    requires ReplayToken(Prepare(in1, id1, c1)).Some?
    requires Prepare(in2, id2, c2).replayNonce == Prepare(in1, id1, c1).replayNonce
    requires schema(Prepare(in2, id2, c2))
    ensures var o1 := CreateStep(s, in1, id1, c1, schema);
      CreateStep(o1.store, in2, id2, c2, schema) == CreateOutcome(o1.result, o1.store, None)
  {
    var o1 := CreateStep(s, in1, id1, c1, schema);
    var m := Prepare(in1, id1, c1);
    CreatePreservesStore(s, in1, id1, c1, schema);
    NonceHolderSpec(s, ReplayToken(m).value);
    var stored := o1.result.value;
    assert stored.replayNonce == m.replayNonce;
    assert stored.mandateId.Some? && stored.mandateId.value in o1.store.mandates &&
      o1.store.mandates[stored.mandateId.value] == stored;
    ReplayReturnsStored(o1.store, stored.mandateId.value, in2, id2, c2, schema);
  }

  /** Without a nonce hit, the prepared mandate is stored under its id, replacing whatever was there, and logged. */
  lemma CreateStoresUnderId(s: Store, input: Mandate, freshId: string, clock: Clock, schema: Mandate -> bool)
    requires StoreValid(s)
    requires schema(Prepare(input, freshId, clock))
    requires var m := Prepare(input, freshId, clock);
      ReplayToken(m).None? || forall k :: k in s.mandates ==> s.mandates[k].replayNonce != m.replayNonce
    ensures var m := Prepare(input, freshId, clock); var o := CreateStep(s, input, freshId, clock, schema);
      o.result == Success(m) && m.mandateId.Some? &&
      o.store.mandates == s.mandates[m.mandateId.value := m] &&
      o.logged == Some(CreatedEntry(m))
  {
    var m := Prepare(input, freshId, clock);
    if ReplayToken(m).Some? {
      NonceHolderSpec(s, ReplayToken(m).value);
    }
  }

  // ------------------------------------------------------------------
  // Execution and the gate table
  // ------------------------------------------------------------------

  /** No two stored gates guard the same mandate. */
  ghost predicate OneGatePerMandate(gates: map<string, Gate<Mandate>>) {
    forall i, j :: i in gates && j in gates && gates[i].mandateId == gates[j].mandateId ==> i == j
  }

  /** What an execution did: its result, the gate it created, and the entry handed to the ledger, if any. */
  datatype ExecOutcome = ExecOutcome(result: Result<Execution>, newGate: Option<Gate<Mandate>>, logged: Option<Entry>)

  /** The successful end of `execute_mandate`: the result with the fees, and its ledger entry. */
  function Executed(m: Mandate, mandateId: string, executor: string, clock: Clock): ExecOutcome {
    var result := Execution("executed", executor, clock.iso, Fees(m));
    ExecOutcome(Success(result), None, Some(ExecutedEntry(mandateId, executor, result)))
  }

  /**
   * `execute_mandate`: NotFound for an unknown mandate; a mandate that needs
   * approval is blocked by a pending or rejected gate, and when it has no gate
   * one is created and the call fails; otherwise it executes.
   */
  function ExecuteStep(s: Store, gates: map<string, Gate<Mandate>>, gateOrder: seq<string>, mandateId: string,
                       executor: string, clock: Clock, freshGateId: string, gateSchema: Gate<Mandate> -> bool): (o: ExecOutcome)
    requires forall id :: id in gateOrder ==> id in gates
    ensures mandateId !in s.mandates ==> o == ExecOutcome(Failure(NotFound), None, None)
    ensures o.result.Failure? ==> o.logged.None?
    ensures o.result.Success? ==> (mandateId in s.mandates &&
      o.result.value == Execution("executed", executor, clock.iso, Fees(s.mandates[mandateId])) &&
      o.logged == Some(ExecutedEntry(mandateId, executor, o.result.value)))
    ensures o.newGate.Some? ==> (mandateId in s.mandates && o.result == Failure(GateCreated(freshGateId)) &&
      o.newGate.value == NewGate(freshGateId, mandateId, RequiredApprovers(s.mandates[mandateId]), s.mandates[mandateId], None, clock))
  {
    if mandateId !in s.mandates then ExecOutcome(Failure(NotFound), None, None)
    else
      var m := s.mandates[mandateId];
      var required := RequiredApprovers(m);
      if required == [] then Executed(m, mandateId, executor, clock)
      else
        match FirstGateFor(gateOrder, gates, mandateId)
        case Some(g) =>
          if g.status == Pending then ExecOutcome(Failure(PendingApproval(g.gateId)), None, None)
          else if g.status == Rejected then ExecOutcome(Failure(ApprovalRejected(g.gateId)), None, None)
          else Executed(m, mandateId, executor, clock)
        case None =>
          var g := NewGate(freshGateId, mandateId, required, m, None, clock);
          if gateSchema(g) then ExecOutcome(Failure(GateCreated(freshGateId)), Some(g), None)
          else ExecOutcome(Failure(ValidationFailed), None, None)
  }

  /** A mandate that needs no approval executes at once, with the fees of `process_fees`, and creates no gate. */
  lemma ExecuteWithoutApprovers(s: Store, gates: map<string, Gate<Mandate>>, gateOrder: seq<string>, mandateId: string,
                                executor: string, clock: Clock, freshGateId: string, gateSchema: Gate<Mandate> -> bool)
    requires forall id :: id in gateOrder ==> id in gates
    requires mandateId in s.mandates && RequiredApprovers(s.mandates[mandateId]) == []
    ensures ExecuteStep(s, gates, gateOrder, mandateId, executor, clock, freshGateId, gateSchema)
      == Executed(s.mandates[mandateId], mandateId, executor, clock)
  {
  }

  /**
   * The first attempt on a mandate that needs approval and has no gate creates
   * exactly one pending gate for it, with its approvers and the mandate as
   * payload, and fails with that gate's id.
   */
  lemma ExecuteCreatesGate(s: Store, gates: map<string, Gate<Mandate>>, gateOrder: seq<string>, mandateId: string,
                           executor: string, clock: Clock, freshGateId: string, gateSchema: Gate<Mandate> -> bool)
    requires forall id :: id in gateOrder <==> id in gates
    requires forall id :: id in gates ==> gates[id].gateId == id
    requires mandateId in s.mandates && RequiredApprovers(s.mandates[mandateId]) != []
    requires forall id :: id in gates ==> gates[id].mandateId != mandateId
    requires gateSchema(NewGate(freshGateId, mandateId, RequiredApprovers(s.mandates[mandateId]), s.mandates[mandateId], None, clock))
    ensures var o := ExecuteStep(s, gates, gateOrder, mandateId, executor, clock, freshGateId, gateSchema);
      o.result == Failure(GateCreated(freshGateId)) && o.logged.None? && o.newGate.Some? &&
      o.newGate.value.status == Pending && o.newGate.value.mandateId == mandateId &&
      o.newGate.value.requiredApprovers == RequiredApprovers(s.mandates[mandateId]) &&
      o.newGate.value.payload == s.mandates[mandateId]
  {
    FirstGateForSpec(gateOrder, gates, mandateId);
  }

  /**
   * With a gate for the mandate, execution follows the gate: pending and
   * rejected block it (naming the gate) and create nothing; approved lets it proceed.
   */
  lemma ExecuteFollowsGate(s: Store, gates: map<string, Gate<Mandate>>, gateOrder: seq<string>, mandateId: string,
                           executor: string, clock: Clock, freshGateId: string, gateSchema: Gate<Mandate> -> bool,
                           gateId: string)
    requires forall id :: id in gateOrder <==> id in gates
    requires forall id :: id in gates ==> gates[id].gateId == id
    requires OneGatePerMandate(gates)
    requires mandateId in s.mandates && RequiredApprovers(s.mandates[mandateId]) != []
    requires gateId in gates && gates[gateId].mandateId == mandateId
    ensures var o := ExecuteStep(s, gates, gateOrder, mandateId, executor, clock, freshGateId, gateSchema);
      && o.newGate.None?
      && (gates[gateId].status == Pending ==> o.result == Failure(PendingApproval(gateId)))
      && (gates[gateId].status == Rejected ==> o.result == Failure(ApprovalRejected(gateId)))
      && (gates[gateId].status == Approved ==> o == Executed(s.mandates[mandateId], mandateId, executor, clock))
  {
    FirstMatchUnique(gateOrder, gates, (g: Gate<Mandate>) => g.mandateId == mandateId, gateId);
  }

  /** The gate an execution creates is for a mandate that had none, so gates stay one per mandate. */
  lemma ExecutePreservesOneGate(s: Store, gates: map<string, Gate<Mandate>>, gateOrder: seq<string>, mandateId: string,
                                executor: string, clock: Clock, freshGateId: string, gateSchema: Gate<Mandate> -> bool)
    requires forall id :: id in gateOrder <==> id in gates
    requires forall id :: id in gates ==> gates[id].gateId == id
    requires OneGatePerMandate(gates) && freshGateId !in gates
    ensures var o := ExecuteStep(s, gates, gateOrder, mandateId, executor, clock, freshGateId, gateSchema);
      o.newGate.Some? ==> OneGatePerMandate(gates[freshGateId := o.newGate.value])
  {
    FirstGateForSpec(gateOrder, gates, mandateId);
  }

  /**
   * The gate-creating attempt is one-shot: run again on the table it left, the
   * next attempt fails with PendingApproval for that same gate and creates no other.
   */
  lemma ExecuteAgainIsPending(s: Store, gates: map<string, Gate<Mandate>>, gateOrder: seq<string>, mandateId: string,
                              executor: string, clock: Clock, freshGateId: string, gateSchema: Gate<Mandate> -> bool,
                              executor2: string, clock2: Clock, freshGateId2: string)
    requires forall id :: id in gateOrder <==> id in gates
    requires forall id :: id in gates ==> gates[id].gateId == id
    requires OneGatePerMandate(gates) && freshGateId !in gates
    requires ExecuteStep(s, gates, gateOrder, mandateId, executor, clock, freshGateId, gateSchema).newGate.Some?
    ensures var g := ExecuteStep(s, gates, gateOrder, mandateId, executor, clock, freshGateId, gateSchema).newGate.value;
      var o2 := ExecuteStep(s, gates[freshGateId := g], gateOrder + [freshGateId], mandateId, executor2, clock2, freshGateId2, gateSchema);
      o2.result == Failure(PendingApproval(freshGateId)) && o2.newGate.None? && o2.logged.None?
  {
    var g := ExecuteStep(s, gates, gateOrder, mandateId, executor, clock, freshGateId, gateSchema).newGate.value;
    ExecutePreservesOneGate(s, gates, gateOrder, mandateId, executor, clock, freshGateId, gateSchema);
    var gates' := gates[freshGateId := g];
    ExecuteFollowsGate(s, gates', gateOrder + [freshGateId], mandateId, executor2, clock2, freshGateId2, gateSchema, freshGateId);
  }

  /** A vote changes no gate's mandate, so gates stay one per mandate. */
  lemma VotePreservesOneGate(gates: map<string, Gate<Mandate>>, gateId: string, g: Gate<Mandate>)
    requires OneGatePerMandate(gates) && gateId in gates && g.mandateId == gates[gateId].mandateId
    ensures OneGatePerMandate(gates[gateId := g])
  {
    var t := gates[gateId := g];
    forall i, j | i in t && j in t && t[i].mandateId == t[j].mandateId ensures i == j {
      assert t[i].mandateId == gates[i].mandateId && t[j].mandateId == gates[j].mandateId;
    }
  }

  // ------------------------------------------------------------------
  // The engine
  // ------------------------------------------------------------------

  /** `MandateEngine`: the mandate table, its own gate table, and an optional ledger. */
  class MandateEngine {
    var mandates: map<string, Mandate>
    var order: seq<string>
    const gateEngine: GateEngine<Mandate>
    const scribe: ScribeAgent?
    /** The mandate JSON schema, as a predicate on mandates. */
    const schema: Mandate -> bool

    ghost function StoreOf(): Store
      reads this
    {
      Store(mandates, order)
    }

    ghost predicate Valid()
      reads this, gateEngine
    {
      StoreValid(StoreOf()) && gateEngine.Valid() && OneGatePerMandate(gateEngine.gates)
    }

    constructor (scribe: ScribeAgent?, schema: Mandate -> bool, gateSchema: Gate<Mandate> -> bool)
      ensures Valid() && fresh(gateEngine)
      ensures this.scribe == scribe && this.schema == schema && gateEngine.schema == gateSchema
      ensures mandates == map[] && order == [] && gateEngine.gates == map[] && gateEngine.order == []
    {
      mandates := map[];
      order := [];
      this.scribe := scribe;
      this.schema := schema;
      gateEngine := new GateEngine(gateSchema);
    }

    /** The replay scan of `create_mandate`: the first stored mandate, in insertion order, with this nonce. */
    method FindByNonce(nonce: string) returns (r: Option<Mandate>)
      requires Valid()
      ensures r == NonceHolder(StoreOf(), nonce)
      ensures r.None? <==> forall k :: k in mandates ==> mandates[k].replayNonce != Some(nonce)
      ensures r.Some? ==> (r.value.replayNonce == Some(nonce) && r.value.mandateId.Some? &&
        r.value.mandateId.value in mandates && mandates[r.value.mandateId.value] == r.value)
    {
      NonceHolderSpec(StoreOf(), nonce);
      var i := 0;
      while i < |order|
        invariant 0 <= i <= |order|
        invariant NonceHolder(StoreOf(), nonce) == FirstMatch(order[i..], mandates, (x: Mandate) => x.replayNonce == Some(nonce))
      {
        var m := mandates[order[i]];
        if m.replayNonce == Some(nonce) {
          return Some(m);
        }
        assert order[i..][1..] == order[i + 1..];
        i := i + 1;
      }
      r := None;
    }

    /** `create_mandate`, agreeing with `CreateStep`; the ledger, when present, receives what `CreateStep` logs. */
    method CreateMandate(input: Mandate, freshId: string, clock: Clock) returns (r: Result<Mandate>)
      requires Valid()
      modifies this, scribe
      ensures Valid()
      ensures var o := CreateStep(old(StoreOf()), input, freshId, clock, schema);
        && r == o.result && StoreOf() == o.store
        && (scribe != null ==> scribe.log == old(scribe.log) + (if o.logged.Some? then [Finalize(o.logged.value, clock)] else []))
    {
      CreatePreservesStore(StoreOf(), input, freshId, clock, schema);
      var m := Prepare(input, freshId, clock);
      if !schema(m) {
        return Failure(ValidationFailed);
      }
      if m.replayNonce.Some? && m.replayNonce.value != "" {
        var hit := FindByNonce(m.replayNonce.value);
        if hit.Some? {
          return Success(hit.value);
        }
      }
      var id := m.mandateId.value;
      if id !in mandates {
        order := order + [id];
      }
      mandates := mandates[id := m];
      if scribe != null {
        var _ := scribe.AppendEntry(CreatedEntry(m), clock);
      }
      r := Success(m);
    }

    /** `create_submandate`, agreeing with `SubmandateStep`. */
    method CreateSubmandate(parentId: string, sub: Mandate, freshId: string, clock: Clock) returns (r: Result<Mandate>)
      requires Valid()
      modifies this, scribe
      ensures Valid()
      ensures var o := SubmandateStep(old(StoreOf()), parentId, sub, freshId, clock, schema);
        && r == o.result && StoreOf() == o.store
        && (scribe != null ==> scribe.log == old(scribe.log) + (if o.logged.Some? then [Finalize(o.logged.value, clock)] else []))
    {
      if parentId !in mandates {
        return Failure(NotFound);
      }
      var child := Inherit(mandates[parentId], parentId, sub);
      r := CreateMandate(child, freshId, clock);
    }

    /** `process_fees`: NotFound for an unknown mandate, else the split of the stored mandate. */
    method ProcessFees(mandateId: string) returns (r: Result<FeeSplit>)
      ensures mandateId !in mandates ==> r == Failure(NotFound)
      ensures mandateId in mandates ==> r == Success(Fees(mandates[mandateId]))
    {
      if mandateId !in mandates {
        return Failure(NotFound);
      }
      var m := mandates[mandateId];
      var total := m.amount.GetOr(0.0);
      var fees := m.feeDistribution.GetOr(NoFees);
      var protocolShare := fees.protocol.GetOr(0.0);
      var validatorShare := fees.validator.GetOr(0.0);
      var issuerShare := fees.issuer.GetOr(0.0);
      r := Success(FeeSplit(protocolShare * total, validatorShare * total, issuerShare * total));
      assert r.value == Fees(m);
    }

    /**
     * `execute_mandate`, agreeing with `ExecuteStep`: the mandate table is not
     * touched, the gate table gains at most the one gate `ExecuteStep` creates,
     * and the ledger receives what `ExecuteStep` logs.
     */
    method ExecuteMandate(mandateId: string, executor: string, clock: Clock, freshGateId: string) returns (r: Result<Execution>)
      requires Valid() && freshGateId !in gateEngine.gates
      modifies gateEngine, scribe
      ensures Valid()
      ensures mandates == old(mandates) && order == old(order)
      ensures var o := ExecuteStep(StoreOf(), old(gateEngine.gates), old(gateEngine.order), mandateId, executor, clock,
                                   freshGateId, gateEngine.schema);
        && r == o.result
        && gateEngine.gates == (if o.newGate.Some? then old(gateEngine.gates)[freshGateId := o.newGate.value] else old(gateEngine.gates))
        && gateEngine.order == (if o.newGate.Some? then old(gateEngine.order) + [freshGateId] else old(gateEngine.order))
        && (scribe != null ==> scribe.log == old(scribe.log) + (if o.logged.Some? then [Finalize(o.logged.value, clock)] else []))
    {
      ExecutePreservesOneGate(StoreOf(), gateEngine.gates, gateEngine.order, mandateId, executor, clock, freshGateId, gateEngine.schema);
      if mandateId !in mandates {
        return Failure(NotFound);
      }
      var m := mandates[mandateId];
      var required := RequiredApprovers(m);
      if required != [] {
        var gate := gateEngine.GetGateByMandateId(mandateId);
        if gate.Some? {
          if gate.value.status == Pending {
            return Failure(PendingApproval(gate.value.gateId));
          } else if gate.value.status == Rejected {
            return Failure(ApprovalRejected(gate.value.gateId));
          }
        } else {
          var created := gateEngine.CreateGate(mandateId, required, m, None, freshGateId, clock);
          if created.Failure? {
            return Failure(created.error);
          }
          return Failure(GateCreated(created.value.gateId));
        }
      }
      var fees := ProcessFees(mandateId);
      var result := Execution("executed", executor, clock.iso, fees.value);
      if scribe != null {
        var _ := scribe.AppendEntry(ExecutedEntry(mandateId, executor, result), clock);
      }
      r := Success(result);
    }
  }
}
