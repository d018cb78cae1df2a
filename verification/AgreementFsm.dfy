/** The agreement state machine: states by attributes, suspension flags, and the recomputation that
    follows a change of a tenant's attributes. */
module AgreementFsm {
  import opened Wrappers
  import opened Domain
  import opened AttributeSatisfaction

  datatype Tenant = Tenant(id: TenantId, attributes: seq<TenantAttribute>, hasContactEmail: bool)

  function NextFromDraft(a: Agreement, d: Descriptor, attributes: seq<TenantAttribute>, now: int): AgreementState {
    if a.consumer == a.producer then Active
    else if !CertifiedSatisfied(d.attributes, attributes) then MissingCertifiedAttributes
    else if d.approvalPolicy == Some(Automatic) && DeclaredSatisfied(d.attributes, attributes)
            && VerifiedSatisfied(a.producer, now, d.attributes, attributes) then Active
    else if DeclaredSatisfied(d.attributes, attributes) then Pending
    else Draft
  }

  function NextFromPending(a: Agreement, d: Descriptor, attributes: seq<TenantAttribute>, now: int): AgreementState {
    if !CertifiedSatisfied(d.attributes, attributes) then MissingCertifiedAttributes
    else if !DeclaredSatisfied(d.attributes, attributes) then Draft
    else if !VerifiedSatisfied(a.producer, now, d.attributes, attributes) then Pending
    else Active
  }

  function NextFromLive(a: Agreement, d: Descriptor, attributes: seq<TenantAttribute>, now: int): AgreementState {
    if a.consumer == a.producer then Active
    else if CertifiedSatisfied(d.attributes, attributes) && DeclaredSatisfied(d.attributes, attributes)
            && VerifiedSatisfied(a.producer, now, d.attributes, attributes) then Active
    else Suspended
  }

  function NextState(a: Agreement, d: Descriptor, attributes: seq<TenantAttribute>, now: int): AgreementState {
    match a.state
    case Draft => NextFromDraft(a, d, attributes, now)
    case Pending => NextFromPending(a, d, attributes, now)
    case Active => NextFromLive(a, d, attributes, now)
    case Suspended => NextFromLive(a, d, attributes, now)
    case Archived => Archived
    case MissingCertifiedAttributes =>
      if CertifiedSatisfied(d.attributes, attributes) then Draft else MissingCertifiedAttributes
    case Rejected => Rejected
  }

  function StateByFlags(next: AgreementState, byProducer: Option<bool>, byConsumer: Option<bool>,
                        byPlatform: Option<bool>): AgreementState
  {
    if next == Active && (byProducer == Some(true) || byConsumer == Some(true) || byPlatform == Some(true))
      then Suspended else next
  }

  predicate PlatformFlag(next: AgreementState) {
    next == Suspended || next == MissingCertifiedAttributes
  }

  function ConsumerFlag(a: Agreement, requester: TenantId, target: AgreementState): Option<bool> {
    if requester == a.consumer then Some(target == Suspended) else a.suspendedByConsumer
  }

  function ProducerFlag(a: Agreement, requester: TenantId, target: AgreementState,
                        delegate: Option<TenantId>): Option<bool>
  {
    if requester == a.producer || Some(requester) == delegate then Some(target == Suspended) else a.suspendedByProducer
  }

  /* ---- monotone lifecycle ---- */

  /** How far a state is on the way to Active. */
  function Height(s: AgreementState): int {
    match s
    case MissingCertifiedAttributes => 0
    case Draft => 1
    case Suspended => 1
    case Pending => 2
    case Active => 3
    case Archived => 4
    case Rejected => 5
  }

  /** Whatever a tenant gains, no agreement is set back: missing < draft < pending < active, and
      suspended < active. */
  lemma MonotoneLifecycle(a: Agreement, d: Descriptor, fewer: seq<TenantAttribute>, more: seq<TenantAttribute>,
                          now: int)
    requires Includes(more, fewer)
    ensures Height(NextState(a, d, fewer, now)) <= Height(NextState(a, d, more, now))
    ensures NextState(a, d, fewer, now) == Suspended ==> NextState(a, d, more, now) in {Suspended, Active}
  {
    GainingSatisfiesMore(d.attributes, a.producer, now, fewer, more);
  }

  /* ---- recomputation ---- */

  function AllowedTransitions(s: AgreementState): set<AgreementState> {
    match s
    case Draft => {MissingCertifiedAttributes}
    case Pending => {MissingCertifiedAttributes}
    case MissingCertifiedAttributes => {Draft}
    case Active => {Suspended}
    case Suspended => {Active, Suspended}
    case Archived => {}
    case Rejected => {}
  }

  datatype PlatformEventName =
    | AgreementSuspendedByPlatform
    | AgreementUnsuspendedByPlatform
    | AgreementSetMissingCertifiedAttributesByPlatform
    | AgreementSetDraftByPlatform

  /** What the recomputation of one agreement comes to. */
  datatype Recomputed =
    | Unchanged
    | Emitted(name: PlatformEventName, agreement: Agreement)
    | NotAllowed  // logged as an error

  function UpdateState(a: Agreement, d: Descriptor, attributes: seq<TenantAttribute>, now: int): Recomputed {
    var next := NextState(a, d, attributes, now);
    var byPlatform := PlatformFlag(next);
    var final := StateByFlags(next, a.suspendedByProducer, a.suspendedByConsumer, Some(byPlatform));
    var updated := a.(state := final, suspendedByPlatform := Some(byPlatform));
    if final in AllowedTransitions(a.state) && Some(byPlatform) != a.suspendedByPlatform then
      if final == Suspended && byPlatform then Emitted(AgreementSuspendedByPlatform, updated)
      else if final == Suspended || final == Active then Emitted(AgreementUnsuspendedByPlatform, updated)
      else if final == MissingCertifiedAttributes
        then Emitted(AgreementSetMissingCertifiedAttributesByPlatform, updated)
      else if final == Draft then Emitted(AgreementSetDraftByPlatform, updated)
      else NotAllowed
    else Unchanged
  }

  /** The agreement once the event, if there is one, is applied. */
  function Settled(a: Agreement, r: Recomputed): Agreement {
    if r.Emitted? then r.agreement else a
  }

  /** One agreement: an emitted event makes an allowed transition, the error branch is never taken, and
      a second recomputation with the same attributes emits nothing. */
  lemma UpdateIsFixpoint(a: Agreement, d: Descriptor, attributes: seq<TenantAttribute>, now: int)
    ensures var r := UpdateState(a, d, attributes, now);
            && !r.NotAllowed?
            && (r.Emitted? ==>
                  r.agreement.state in AllowedTransitions(a.state)
                  && r.agreement.suspendedByPlatform != a.suspendedByPlatform)
            && UpdateState(Settled(a, r), d, attributes, now) == Unchanged
  {
  }

  predicate InGroups(id: AttributeId, groups: seq<seq<AttributeId>>) {
    exists g :: g in groups && id in g
  }

  predicate ContainsAttribute(id: AttributeId, e: EService) {
    exists d :: d in e.descriptors
      && (InGroups(id, d.attributes.certified) || InGroups(id, d.attributes.declared)
          || InGroups(id, d.attributes.verified))
  }

  predicate Updatable(s: AgreementState) {
    AllowedTransitions(s) != {}
  }

  /** The agreement of the consumer as the recomputation for one attribute sees it. */
  function RecomputeOne(a: Agreement, attribute: AttributeId, consumer: Tenant, eservices: map<EServiceId, EService>,
                        now: int): Recomputed
  {
    var e := Lookup(eservices, a.eservice);
    if a.consumer != consumer.id || !Updatable(a.state) || e.None? || !ContainsAttribute(attribute, e.value)
      then Unchanged
    else
      var d := FindDescriptor(e.value.descriptors, a.descriptor);
      if d.None? then Unchanged else UpdateState(a, d.value, consumer.attributes, now)
  }

  /** The events for a list of agreements, in the list's order. */
  function RecomputeAll(agreements: seq<Agreement>, attribute: AttributeId, consumer: Tenant,
                        eservices: map<EServiceId, EService>, now: int): seq<Agreement>
  {
    if agreements == [] then []
    else
      var r := RecomputeOne(agreements[0], attribute, consumer, eservices, now);
      (if r.Emitted? then [r.agreement] else []) + RecomputeAll(agreements[1..], attribute, consumer, eservices, now)
  }

  function SettledAll(agreements: seq<Agreement>, attribute: AttributeId, consumer: Tenant,
                      eservices: map<EServiceId, EService>, now: int): seq<Agreement>
  {
    if agreements == [] then []
    else
      [Settled(agreements[0], RecomputeOne(agreements[0], attribute, consumer, eservices, now))]
      + SettledAll(agreements[1..], attribute, consumer, eservices, now)
  }

  /** Recomputation is a fixpoint in one step, for every list of agreements: once the emitted events
      are applied, computing again emits nothing. */
  lemma {:induction false} RecomputeIsFixpoint(agreements: seq<Agreement>, attribute: AttributeId, consumer: Tenant,
                                               eservices: map<EServiceId, EService>, now: int)
    ensures RecomputeAll(SettledAll(agreements, attribute, consumer, eservices, now), attribute, consumer, eservices,
                         now) == []
  {
    if agreements != [] {
      var a, rest := agreements[0], SettledAll(agreements[1..], attribute, consumer, eservices, now);
      RecomputeIsFixpoint(agreements[1..], attribute, consumer, eservices, now);
      var r := RecomputeOne(a, attribute, consumer, eservices, now);
      if r.Emitted? {
        UpdateIsFixpoint(a, FindDescriptor(Lookup(eservices, a.eservice).value.descriptors, a.descriptor).value,
                         consumer.attributes, now);
      }
      assert ([Settled(a, r)] + rest)[0] == Settled(a, r) && ([Settled(a, r)] + rest)[1..] == rest;
    }
  }
}
