/** agreement-platformstate-writer, V2 messages. */
module AgreementWriter {
  import opened Wrappers
  import opened Domain
  import opened Tables
  import opened Effects

  datatype AgreementMessageKind =
    | AgreementActivation   // AgreementActivated
    | SuspensionChange      // the six (un)suspensions
    | AgreementUpgrade      // AgreementUpgraded
    | ConsumerArchival      // AgreementArchivedByConsumer
    | OtherAgreementEvent

  datatype AgreementMessage = AgreementMessage(kind: AgreementMessageKind, agreement: Agreement, version: int)

  function AgreementItemState(state: AgreementState): ItemState {
    if state == Active then ACTIVE else INACTIVE
  }

  function KeyOf(a: Agreement): AgreementKey {
    AgreementKey(a.consumer, a.eservice)
  }

  predicate IsLatest(existing: Option<AgreementRow>, timestamp: int) {
    existing.None? || timestamp >= existing.value.timestamp
  }

  function ExtractTimestamp(a: Agreement): int {
    if a.stamps.upgrade.Some? then a.stamps.upgrade.value.when
    else if a.stamps.activation.Some? then a.stamps.activation.value.when
    else a.createdAt
  }

  function RowOf(m: AgreementMessage, timestamp: int): AgreementRow {
    AgreementRow(AgreementItemState(m.agreement.state), m.agreement.id, timestamp, m.agreement.descriptor, m.version)
  }

  predicate Outdated(existing: Option<AgreementRow>, m: AgreementMessage) {
    existing.Some? && existing.value.version > m.version && existing.value.agreementId == m.agreement.id
  }

  /** Upsert of the row, then of the agreement and descriptor columns of every entry of the consumer
      for the e-service.  The second catalog read can only differ under concurrency. */
  function LatestPlan(s: Rows, m: AgreementMessage, timestamp: int): Plan {
    var target := DescriptorKey(m.agreement.eservice, m.agreement.descriptor);
    Plan(PutAgreement(KeyOf(m.agreement), RowOf(m, timestamp)),
         PatchTokens(AgreementPatch(KeyOf(m.agreement), m.agreement.id, AgreementItemState(m.agreement.state), target,
                                    Lookup(s.descriptors, target))),
         Nothing, Nothing)
  }

  function PlanOf(s: Rows, m: AgreementMessage): Result<Plan, WriterError> {
    var a := m.agreement;
    var key := KeyOf(a);
    var state := AgreementItemState(a.state);
    var existing := Lookup(s.agreements, key);
    match m.kind
    case AgreementActivation =>
      if a.stamps.activation.None? then Err(MissingActivationStamp)
      else if !IsLatest(existing, a.stamps.activation.value.when) || Outdated(existing, m) then Ok(SKIP)
      else Ok(LatestPlan(s, m, a.stamps.activation.value.when))
    case SuspensionChange =>
      if !IsLatest(existing, ExtractTimestamp(a)) || existing.None? || Outdated(existing, m) then Ok(SKIP)
      else
        Ok(Plan(PutAgreement(key, existing.value.(state := state, version := m.version)),
                PatchTokens(AgreementStatePatch(key, state)), Nothing, Nothing))
    case AgreementUpgrade =>
      if a.stamps.upgrade.None? then Err(MissingUpgradeStamp)
      else if !IsLatest(existing, a.stamps.upgrade.value.when) || Outdated(existing, m) then Ok(SKIP)
      else if a.state != Active && a.state != Suspended then Ok(SKIP)
      else Ok(LatestPlan(s, m, a.stamps.upgrade.value.when))
    case ConsumerArchival =>
      if IsLatest(existing, ExtractTimestamp(a)) && existing.Some? && existing.value.agreementId == a.id then
        Ok(Plan(PatchTokens(AgreementStatePatch(key, state)),
                PutAgreement(key, existing.value.(state := state, version := m.version)), Nothing, Nothing))
      else Ok(SKIP)
    case OtherAgreementEvent => Ok(SKIP)
  }
}
