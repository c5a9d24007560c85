# E4A approval core in Dafny

This project models the in-memory approval core of the E4A SDK. It has three cooperating parts:

- **The human-approval gate** (`Gates`, sdk/python/e4a_sdk/gate_engine.py).
  - A table of gates keyed by id, kept in dictionary insertion order.
  - Each gate is a small state machine: pending → approved | rejected.
  - Required approvers vote with `ApproveGate` and `RejectGate`.
  - After every successful vote, `_check_resolution` applies a fixed priority: expiry first, then unanimity, then any required rejection.
- **The mandate lifecycle** (`Mandates`, sdk/python/e4a_sdk/mandate_engine.py).
  - A mandate table keyed by id.
  - Creation is idempotent through a replay nonce.
  - Sub-mandates inherit fields conditionally.
  - Fees are split as share × amount.
  - `ExecuteMandate` consults the gate table. The first attempt on a mandate that needs approval creates a pending gate and fails. Later attempts follow the gate's status.
- **The audit ledger** (`Ledger`, core/scribe_agent.py).
  - `AppendEntry` fills in a missing entry id, timestamp and narrative summary.
  - It then appends the entry to an append-only log, modelled as a `seq<Entry>`.

## Structure

- `common.dfy`: `Option`, `Result`, the typed `Error`, `GateStatus`, a `Clock` reading, and list facts. The list facts cover Python's `list.remove`, `set(list)`, and the first dictionary value that matches a test.
- `records.dfy`: the mandate record and the execution result. Each JSON key the core reads is a field, and an absent key is `None`.
- `ledger.dfy`:
  - the entry type;
  - the pure finalisation `Finalize` and the summary `NarrativeSummary`;
  - the class `ScribeAgent`, whose `AppendEntry` updates its `log` field step by step and is proved equal to `Finalize` plus an append.
- `gates.dfy`:
  - the pure per-gate transitions `Resolve`, `ApproveVote` and `RejectVote`, with their lemmas;
  - the class `GateEngine<P>` (generic in the payload). Its methods change the `gates` map in place as the source does and are proved against the pure transitions.
  - `Valid()` is the table invariant. For every stored gate:
    - approvals and rejections lie within the required approvers;
    - the two lists are disjoint and have no duplicates;
    - a pending gate has no rejections.
- `mandates.dfy`:
  - the pure step functions `CreateStep`, `SubmandateStep` and `ExecuteStep` that specify each operation on the tables, with their lemmas;
  - the class `MandateEngine`, whose methods are proved to agree with those step functions.
  - The engine invariant adds three things: a truthy replay nonce is held by at most one mandate, each mandate is stored under its own id, and no two gates guard the same mandate.
- `scenarios.dfy`: client code that follows the flow of the integration tests in tests/test_gate_engine.py, written as assertions. It uses the two-approver demo mandate of sdk/python/e4a_sdk/mandate_engine.py:159-172 (with fee fractions 0.01, 0.02 and 0.03) rather than the tests' own mandates. The fee amounts and the refused late approval it asserts go beyond what those tests check. Those tests build their ledger from sdk/python/e4a_sdk/scribe_agent.py, which is not part of this model; the model assumes it behaves like core/scribe_agent.py.
  - `ApprovalEndToEnd`: the first execute opens a gate, the second is still pending, two approvals approve it, and execute then succeeds with each fee equal to its fraction of the amount. The ledger holds the creation and the execution, in that order.
  - `RejectionIsFinal`: one rejection is final, a later approval is refused, and execution stays blocked without a second gate.

Nondeterministic inputs become parameters:
- **UUIDs:** `freshId` for mandates, `gateId`/`freshGateId` for gates.
- **The wall clock:** a `Clock` holding whole UTC seconds and the matching ISO-8601 text.
- **The JSON schemas:** a predicate that each engine holds as a constant.

Exceptions become `Failure(e)` with one of these typed errors: `NotFound`, `NotPending(status)`, `Unauthorized(actor)`, `ValidationFailed`, `PendingApproval(gateId)`, `GateCreated(gateId)`, `ApprovalRejected(gateId)`.

## Model

| member | source | states |
|---|---|---|
| Common.RemoveFirst | sdk/python/e4a_sdk/gate_engine.py:96-98 | `list.remove` of a present element cuts out exactly its first occurrence (the position `IndexOf` finds: it holds the element and nothing before it does), keeping everything before and after it in order; an absent element leaves the list unchanged |
| Common.RemoveFirstNoDup | sdk/python/e4a_sdk/gate_engine.py:115-117 | on a duplicate-free list, removal takes the voter out entirely, keeps the list duplicate-free and removes exactly that element from its set |
| Common.FirstMatchSpec | sdk/python/e4a_sdk/gate_engine.py:55-59 | scanning a dictionary's values in insertion order finds nothing exactly when no value matches; otherwise it finds the earliest matching value |
| Common.FirstMatchUnique | sdk/python/e4a_sdk/mandate_engine.py:58-60 | when exactly one stored value matches, the scan returns that value whatever the insertion order |
| Ledger.DefaultEntryId | core/scribe_agent.py:25 | the default entry id is "entry-" followed by the decimal digits of the clock's whole seconds |
| Ledger.DefaultEntryIdSameSecond | core/scribe_agent.py:25 | two default ids are equal exactly when they were made in the same second, so ids are not unique within a second |
| Common.NatToStringInjective | core/scribe_agent.py:25 | `str(int)` writes distinct numbers as distinct texts |
| Ledger.Finalize | core/scribe_agent.py:24-27 | the finalised entry always carries an id, a timestamp and a summary; each of these keys that the caller supplied is kept, each missing one is defaulted, and no other key changes |
| Ledger.FinalizeIdempotent | core/scribe_agent.py:24-27 | finalising an entry the ledger already wrote changes nothing, whatever the clock |
| Ledger.NarrativeSummary | core/scribe_agent.py:32-39 | the type-keyed summary; what it depends on is stated by `Ledger.SummaryDeterminedBy` and its fallback by `Ledger.SummaryFallback` |
| Ledger.SummaryDeterminedBy | core/scribe_agent.py:32-38 | the summary depends only on the type; for mandate_created, on the payload's issuer, beneficiary and id; for mandate_executed, on the entry's mandate id and executor; for other types, on the existing summary |
| Ledger.SummaryFallback | core/scribe_agent.py:33-39 | for any other type the summary is the entry's own when present, else "<type> recorded"; a missing type reads as "event" |
| Ledger.ScribeAgent.constructor | core/scribe_agent.py:16-21 | opening the log keeps the entries an existing log file already holds |
| Ledger.ScribeAgent.AppendEntry | core/scribe_agent.py:23-30 | exactly one entry is appended at the end of the log and earlier entries are unchanged; the entry returned is the one appended, i.e. the finalised argument |
| Gates.NewGate | sdk/python/e4a_sdk/gate_engine.py:27-44 | a new gate has the given id, mandate, approvers and payload, is pending with no votes, is stamped with the clock's time, and has a deadline exactly when a non-zero lifetime is given, namely the creation second plus that lifetime |
| Gates.Resolve | sdk/python/e4a_sdk/gate_engine.py:61-82 | resolution changes only the status, and leaves a terminal gate untouched; its priority rule is stated by `ExpiredVoteRejects`, `ApprovedMeansUnanimous`, `ApproveCompletes`, `ApproveStaysPending` and `RejectResolvesRejected` |
| Gates.ApproveVote | sdk/python/e4a_sdk/gate_engine.py:84-101 | a terminal gate fails with NotPending(its status); an actor who is not a required approver fails with Unauthorized; a success keeps the gate's identity, approvers, payload and deadline and lists the approver among the approvals |
| Gates.RejectVote | sdk/python/e4a_sdk/gate_engine.py:103-120 | the same failures as an approval; a success keeps the gate's identity and lists the rejector among the rejections |
| Gates.TerminalIsFinal | sdk/python/e4a_sdk/gate_engine.py:61-64 | monotonicity: an approved or rejected gate is left alone by resolution, and every vote on it fails with NotPending(status) |
| Gates.UnanimousMeaning | sdk/python/e4a_sdk/gate_engine.py:74-77 | the approval test holds only if every required approver has approved, and holds exactly then when the required list has no duplicates |
| Gates.NotUnanimousWithout | sdk/python/e4a_sdk/gate_engine.py:74-75 | while one required approver has not approved, the gate cannot resolve to approved |
| Gates.ApprovePreservesWellFormed | sdk/python/e4a_sdk/gate_engine.py:90-100 | a successful approval keeps the gate well formed: votes only from required approvers, the two lists disjoint and duplicate-free, and no rejections while pending |
| Gates.RejectPreservesWellFormed | sdk/python/e4a_sdk/gate_engine.py:109-119 | a successful rejection keeps the gate well formed |
| Gates.VoteMovesVoter | sdk/python/e4a_sdk/gate_engine.py:93-98 | a vote by X puts X in one list and takes X out of the other; every other voter stays where they were |
| Gates.RejectResolvesRejected | sdk/python/e4a_sdk/gate_engine.py:112-119 | a successful rejection always leaves the gate rejected |
| Gates.ApprovedMeansUnanimous | sdk/python/e4a_sdk/gate_engine.py:66-77 | an approval that resolves the gate to approved happens only before the deadline and only once every required approver has approved |
| Gates.ApproveCompletes | sdk/python/e4a_sdk/gate_engine.py:73-77 | for any duplicate-free required list, the approval before the deadline that completes the approvals resolves the gate to approved |
| Gates.ApproveStaysPending | sdk/python/e4a_sdk/gate_engine.py:73-82 | before the deadline, an approval that leaves another required approver missing keeps a well-formed gate pending |
| Gates.ExpiredVoteRejects | sdk/python/e4a_sdk/gate_engine.py:66-71 | expiry comes first: past the deadline any successful vote rejects the gate, even one that completes the approvals |
| Gates.TwoApprovals | tests/test_gate_engine.py:46-62 | with two distinct required approvers, the first approval leaves the gate pending and the second approves it |
| Gates.FirstOfTwo | tests/test_gate_engine.py:52-56 | the first of two approvals records the approver and leaves the gate pending |
| Gates.SecondOfTwo | tests/test_gate_engine.py:58-62 | the second of two approvals records the approver and approves the gate |
| Gates.DuplicateRequiredBlocks | sdk/python/e4a_sdk/gate_engine.py:74-75 | the test compares against the list length, so a required list [a, a] stays pending after a approves |
| Gates.DuplicateRequiredNeverApproves | sdk/python/e4a_sdk/gate_engine.py:74-75 | a required list with a repeated approver never passes the approval test, so neither vote can ever resolve such a gate to approved |
| Gates.FirstGateForSpec | sdk/python/e4a_sdk/gate_engine.py:55-59 | looking a gate up by mandate finds nothing exactly when no stored gate guards the mandate; otherwise it finds a stored gate that does |
| Gates.GateEngine.constructor | sdk/python/e4a_sdk/gate_engine.py:18-19 | a new engine has an empty gate table |
| Gates.GateEngine.CreateGate | sdk/python/e4a_sdk/gate_engine.py:27-47 | a gate that passes the schema is stored under the fresh id and returned, and every other gate is unchanged; one that fails is not stored; the table invariant is kept |
| Gates.GateEngine.GetGateStatus | sdk/python/e4a_sdk/gate_engine.py:49-53 | returns the stored gate unchanged, or NotFound for an unknown id; read-only |
| Gates.GateEngine.GetGateByMandateId | sdk/python/e4a_sdk/gate_engine.py:55-59 | read-only; the first gate in insertion order for the mandate, or None exactly when no gate guards it |
| Gates.GateEngine.CheckResolution | sdk/python/e4a_sdk/gate_engine.py:61-82 | the stored gate's status becomes its resolution at `now`; nothing else changes |
| Gates.GateEngine.ApproveGate | sdk/python/e4a_sdk/gate_engine.py:84-101 | NotFound, NotPending or Unauthorized leave the table unchanged; otherwise the gate becomes the approval's result and no other gate changes; the table invariant is kept |
| Gates.GateEngine.RejectGate | sdk/python/e4a_sdk/gate_engine.py:103-120 | the same failures as an approval; a successful rejection stores a rejected gate and changes no other gate; the table invariant is kept |
| Mandates.Prepare | sdk/python/e4a_sdk/mandate_engine.py:47-50 | the copy gets the fresh id only when its id is missing or empty, and a creation time only when that is absent; nothing else changes |
| Mandates.PrepareIdempotent | sdk/python/e4a_sdk/mandate_engine.py:48-50 | a prepared mandate is not changed by preparing it again: an id and a creation time, once set, are never replaced |
| Mandates.Inherit | sdk/python/e4a_sdk/mandate_engine.py:77-83 | the parent reference defaults to the parent's id; tags and fee distribution are copied from the parent only when it opts into inheritance, and only when the child lacks them; nothing else changes |
| Mandates.FeesProportional | sdk/python/e4a_sdk/mandate_engine.py:91-100 | the three fee amounts add up to the sum of the shares times the amount; a missing amount gives zero fees |
| Mandates.CreateStep | sdk/python/e4a_sdk/mandate_engine.py:46-70 | a validation failure changes nothing and logs nothing; a success that logs nothing leaves the table unchanged; whatever is logged is the mandate_created entry of the returned mandate |
| Mandates.SubmandateStep | sdk/python/e4a_sdk/mandate_engine.py:72-85 | an unknown parent fails with NotFound and changes nothing; otherwise the inherited child is created as any mandate is |
| Mandates.NonceHolderSpec | sdk/python/e4a_sdk/mandate_engine.py:56-60 | the nonce scan finds nothing exactly when no stored mandate has the nonce; otherwise it finds the mandate stored under its own id |
| Mandates.CreatePreservesStore | sdk/python/e4a_sdk/mandate_engine.py:56-62 | creation keeps the table invariant: each id is listed once, each mandate is stored under its id, and a truthy nonce is held by at most one mandate |
| Mandates.SubmandatePreservesStore | sdk/python/e4a_sdk/mandate_engine.py:72-85 | sub-mandate creation keeps the table invariant |
| Mandates.ReplayReturnsStored | sdk/python/e4a_sdk/mandate_engine.py:53-60 | a valid request whose truthy nonce a stored mandate holds returns that mandate; it changes neither the table nor the ledger |
| Mandates.CreateTwiceIdempotent | sdk/python/e4a_sdk/mandate_engine.py:46-70 | creating twice with the same truthy nonce returns the first stored mandate both times; the second call changes nothing |
| Mandates.CreateStoresUnderId | sdk/python/e4a_sdk/mandate_engine.py:62-70 | without a nonce hit the prepared mandate is stored under its id, replacing any entry there, and exactly one mandate_created entry is logged |
| Mandates.ExecuteStep | sdk/python/e4a_sdk/mandate_engine.py:102-136 | an unknown mandate fails with NotFound and changes nothing; failures log nothing; a success returns status "executed", the executor and the fees of `process_fees`, and logs one mandate_executed entry; the only gate ever created is a pending one for the mandate, with its approvers and the mandate as payload |
| Mandates.ExecuteWithoutApprovers | sdk/python/e4a_sdk/mandate_engine.py:103-127 | a mandate with no required approvers executes at once and creates no gate |
| Mandates.ExecuteCreatesGate | sdk/python/e4a_sdk/mandate_engine.py:117-119 | with no gate for the mandate, exactly one pending gate is created for it, with its approvers and the mandate as payload, and the call fails naming that gate |
| Mandates.ExecuteFollowsGate | sdk/python/e4a_sdk/mandate_engine.py:109-116 | with a gate for the mandate, a pending gate blocks execution with PendingApproval and a rejected one with ApprovalRejected, neither creating a gate; an approved gate lets it execute |
| Mandates.ExecutePreservesOneGate | sdk/python/e4a_sdk/mandate_engine.py:108-119 | a gate is created only for a mandate that had none, so no two gates guard the same mandate |
| Mandates.ExecuteAgainIsPending | sdk/python/e4a_sdk/mandate_engine.py:110-113 | creating the gate is a one-shot effect: the next attempt fails with PendingApproval for that same gate and creates no other |
| Mandates.VotePreservesOneGate | sdk/python/e4a_sdk/gate_engine.py:93-100 | a vote does not change which mandate a gate guards, so gates stay one per mandate |
| Mandates.MandateEngine.constructor | sdk/python/e4a_sdk/mandate_engine.py:29-38 | a new engine has empty mandate and gate tables and the given ledger |
| Mandates.MandateEngine.FindByNonce | sdk/python/e4a_sdk/mandate_engine.py:56-60 | read-only; returns a stored mandate holding the nonce under its own id, or None exactly when no mandate has it |
| Mandates.MandateEngine.CreateMandate | sdk/python/e4a_sdk/mandate_engine.py:46-70 | the result and new table are those of `CreateStep`; the ledger receives exactly the finalised entry `CreateStep` logs; the invariant is kept |
| Mandates.MandateEngine.CreateSubmandate | sdk/python/e4a_sdk/mandate_engine.py:72-85 | the result, table and ledger are those of `SubmandateStep` |
| Mandates.MandateEngine.ProcessFees | sdk/python/e4a_sdk/mandate_engine.py:87-100 | read-only; NotFound for an unknown mandate, else each party's share times the amount, absent values counting as 0 |
| Mandates.MandateEngine.ExecuteMandate | sdk/python/e4a_sdk/mandate_engine.py:102-136 | the mandate table never changes; the result is that of `ExecuteStep`; the gate table gains exactly the gate `ExecuteStep` creates, if any; the ledger receives exactly what it logs; the invariant is kept |
| Scenarios.Setup | tests/test_gate_engine.py:86-100 | a new engine with a ledger holds the created mandate under its id, has no gates, and has logged its creation |
| Scenarios.ExecuteOpensGate | tests/test_gate_engine.py:100-115 | the first execute fails with GateCreated and stores the new pending gate; the mandates and ledger are unchanged |
| Scenarios.ExecuteUnderGate | tests/test_gate_engine.py:145-152 | execute under an existing gate changes no gate: pending and rejected block it, approved executes it and logs once |
| Scenarios.Approve | tests/test_gate_engine.py:146-148 | an approval through the mandate engine's gate table keeps the engine invariant |
| Scenarios.Reject | tests/test_gate_engine.py:183-185 | a rejection through the mandate engine's gate table keeps the engine invariant |
| Scenarios.ApproveBoth | tests/test_gate_engine.py:52-62 | two approvals by the two required approvers leave the gate approved |
| Scenarios.OpenedGate | tests/test_gate_engine.py:169-180 | after create and the first execute, one pending gate for the mandate exists and one entry is logged |

## Behaviour of the code that differs from what its names suggest

- **Approval test.** "All required approvers approved" would be a superset test. The code instead compares the number of distinct required approvers who approved against the *length* of the required list (gate_engine.py:74-75). The two agree when the list has no duplicates (`Gates.UnanimousMeaning`, `Gates.ApproveCompletes`). With a repeated approver no vote can ever approve the gate (`Gates.DuplicateRequiredNeverApproves`).
- **Terminal votes.** A vote on a resolved gate fails with `NotPending(status)`, carrying the current status as the code's message does.
- **Duplicate ids.** `create_mandate` has no conflict check: a new mandate with an existing id replaces the stored one (`Mandates.CreateStoresUnderId`).
- **Validation order.** Validation runs before the replay scan, so a request that fails the schema never reaches a replay hit (`Mandates.CreateStep`).
- **When expiry applies.** Expiry is applied only when `_check_resolution` runs, which is after a successful vote. Reading a gate or executing its mandate does not re-evaluate it. An expired gate that nobody votes on therefore stays pending.

## Left out

- JSON-schema validation: `validate_mandate` and `_validate_gate` call the foreign `jsonschema` library against schema files that are not part of this model. Each is a predicate fixed when its engine is built. A `ValidationError` becomes `Failure(ValidationFailed)`, including one raised by `create_gate` inside `execute_mandate`.
- UUIDs: `uuid4` is an oracle passed as `freshId`, `gateId` or `freshGateId`.
  - `Gates.GateEngine.CreateGate` requires its id to be new to the table, which is what uuid4 provides.
  - Entry-id uniqueness is not claimed: the code derives the id from whole seconds.
- The wall clock: each call takes one `Clock` reading.
  - The source reads the clock several times in one call.
  - ISO-8601 formatting and parsing are not modelled; expiry is an integer deadline in seconds.
  - Negative times are not modelled (`nat` seconds).
  - DefaultEntryId: assumes the host clock is set to UTC. The source takes `.timestamp()` of a naive `utcnow()` reading, which Python interprets as local time, so on other hosts the id is off by the UTC offset. Gate expiry reads a true UTC time, and the model feeds both from the same `Clock.seconds`.
- Floating point: amounts and shares are `real`, so fee products are exact.
- Aliasing of returned dictionaries is not modelled: records are values, so a caller's copy never changes afterwards. In the source these calls return or share the live dictionary, which later calls can mutate:
  - `create_gate`, `get_gate_status`, `approve_gate` and `reject_gate` return the stored gate (gate_engine.py:47, 53, 101, 120);
  - `create_mandate` returns the stored mandate, both after storing it and on a replay hit (mandate_engine.py:60, 70);
  - the gate that `execute_mandate` creates holds the stored mandate dictionary as its payload (mandate_engine.py:118).
  - on the input side, the stored records share objects with the caller's arguments, because the source takes only shallow copies:
    - `dict(mandate)` and `dict(subpayload)` share the `intent`, `fee_distribution` and `policy_tags` objects with the argument (mandate_engine.py:47, 77);
    - an inheriting sub-mandate shares the parent's `policy_tags` list and `fee_distribution` dictionary (mandate_engine.py:82-83);
    - `create_gate` stores the caller's `required_approvers` list itself (gate_engine.py:38), and in `execute_mandate` that list is the stored mandate's own `requires_approval` list (mandate_engine.py:108, 118).
  - A caller that later mutates those objects therefore changes, in the source, what `process_fees` returns and which approvers a gate requires. The approval test and the subset condition of the gate invariant `Gates.WellFormed` read that list, so the invariant is proved only for a model in which these copies are deep.
- The ledger's file handling: the log is the `log` sequence. Not modelled are creating the directory and file, appending JSON lines to the file, and leaving an existing log file in place. The source never reads the file; it creates it only when missing (core/scribe_agent.py:16-21), so the lines already in it are kept. The constructor's `existing` parameter stands for those lines.
- Entries: the generic entry dictionary is narrowed to the keys that the core writes and reads.
- Mandate records: truthiness is modelled where it matters.
  - An empty `mandate_id` or `replay_nonce` counts as missing.
  - `inherit_values` is a Boolean.
  - A missing `intent` or `requires_approval` reads as no approvers.
- The default executor `'system'` of `execute_mandate` is an ordinary parameter.
- Mandates.MandateEngine.ExecuteMandate: the one-gate-per-mandate invariant covers gates created through the mandate engine. A client that calls the shared gate engine's `CreateGate` directly is outside `MandateEngine.Valid()`.
- The governance kernel and reputation index are not part of this model; their sources are not among the files modelled.
- The HTTP server and client, the adapter stubs, the mock rail server, the CLI launcher and the log canonicaliser are thin shells, so they are not modelled.
- The `__main__` demonstrations and the regex extraction of gate ids from error text are not modelled. The typed errors carry the gate id instead.
- Concurrency: the source is single-threaded, and each call is one atomic step.
