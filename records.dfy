/**
 * The records the mandate engine stores and the ledger writes. A mandate is a
 * JSON object in the source; each key it reads becomes a field here, with
 * `None` for a key that is absent.
 */
module Records {
  import opened Common

  /** The `fee_distribution` object: the three fractions, each possibly absent. */
  datatype FeeDistribution = FeeDistribution(protocol: Option<real>, validator: Option<real>, issuer: Option<real>)

  /** The empty `fee_distribution` object `{}`. */
  const NoFees := FeeDistribution(None, None, None)

  /** The `intent` object; an absent `requires_approval` key reads as the empty list. */
  datatype Intent = Intent(
    goal: string,
    expectedOutcome: string,
    contextualTone: string,
    statisticalPurpose: string,
    requiresApproval: seq<string>)

  datatype Mandate = Mandate(
    mandateId: Option<string>,
    issuer: Option<string>,
    beneficiary: Option<string>,
    amount: Option<real>,
    currency: Option<string>,
    intent: Option<Intent>,
    feeDistribution: Option<FeeDistribution>,
    policyTags: Option<seq<string>>,
    inheritValues: bool,          // truthiness of `inherit_values`; absent reads as false
    parentMandateId: Option<string>,
    replayNonce: Option<string>,
    createdAt: Option<string>)

  /** The approvers the mandate's intent requires; none when the mandate has no intent or the intent lists none. */
  function RequiredApprovers(m: Mandate): seq<string> {
    if m.intent.Some? then m.intent.value.requiresApproval else []
  }

  /** The three amounts `process_fees` returns. */
  datatype FeeSplit = FeeSplit(protocolAmount: real, validatorAmount: real, issuerAmount: real)

  /** The result object of a successful execution. */
  datatype Execution = Execution(status: string, executor: string, executedAt: string, fees: FeeSplit)
}
