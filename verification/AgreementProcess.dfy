/** agreement-process: the operations of the agreement service, as decisions over the read model. */
module AgreementProcess {
  import opened Wrappers
  import opened Domain
  import opened AttributeSatisfaction
  import opened AgreementFsm
  import opened AgreementEventStore

  datatype Delegation = Delegation(id: DelegationId, delegator: TenantId, delegate: TenantId)

  /** What else the service reads: e-services, tenants, the active producer delegations, the clock. */
  datatype World = World(
    eservices: map<EServiceId, EService>,
    tenants: map<TenantId, Tenant>,
    delegations: map<EServiceId, Delegation>,
    now: int)

  datatype AuthData = AuthData(organization: TenantId, user: UserId, isInternal: bool)

  datatype ServiceError =
    | AgreementNotFound
    | EServiceNotFound
    | TenantNotFound
    | DescriptorNotFound
    | OperationNotAllowed
    | NotInExpectedState
    | AlreadyExists
    | NotLatestDescriptor
    | DescriptorNotInExpectedState
    | MissingCertified
    | ConsumerWithoutEmail
    | SubmissionFailed
    | ActivationFailed
    | PublishedDescriptorNotFound
    | NoNewerDescriptor
    | UnexpectedRequester

  /** The events to store in one transaction, and the answer to the caller: a submission or activation
      may store an event and fail. */
  datatype Decision = Decision(events: seq<NewEvent>, answer: Result<Agreement, ServiceError>)

  type Decided = Result<Decision, ServiceError>

  function Need(condition: bool, error: ServiceError): Result<(), ServiceError> {
    if condition then Ok(()) else Err(error)
  }

  function Retrieve<K, V>(m: map<K, V>, k: K, error: ServiceError): Result<V, ServiceError> {
    if k in m then Ok(m[k]) else Err(error)
  }

  function RetrieveDescriptor(e: EService, id: DescriptorId): Result<Descriptor, ServiceError> {
    match FindDescriptor(e.descriptors, id)
    case Some(d) => Ok(d)
    case None => Err(DescriptorNotFound)
  }

  /* ---- validators ---- */

  predicate IsConsumer(a: Agreement, auth: AuthData) {
    auth.isInternal || auth.organization == a.consumer
  }

  predicate CanActAsProducer(a: Agreement, auth: AuthData, delegation: Option<Delegation>) {
    match delegation
    case None => auth.isInternal || auth.organization == a.producer
    case Some(d) => d.delegate == auth.organization && d.delegator == a.producer
  }

  predicate IsLive(s: AgreementState) {
    s == Active || s == Suspended
  }

  predicate Conflicting(s: AgreementState) {
    s == Draft || s == Pending || s == MissingCertifiedAttributes || IsLive(s)
  }

  /** The agreements that a query for a consumer, an e-service and some states lists, in its order. */
  function Related(book: Book, listing: seq<AgreementId>, consumer: TenantId, eservice: EServiceId,
                   states: AgreementState -> bool): (r: seq<AgreementId>)
    requires forall id :: id in listing ==> id in book
    ensures forall id :: id in r <==>
              id in listing && book[id].agreement.consumer == consumer && book[id].agreement.eservice == eservice
                && states(book[id].agreement.state)
  {
    if listing == [] then []
    else
      var id, before := listing[|listing| - 1], Related(book, listing[..|listing| - 1], consumer, eservice, states);
      assert forall x :: x in listing <==> x in listing[..|listing| - 1] || x == id;
      var a := book[id].agreement;
      if a.consumer == consumer && a.eservice == eservice && states(a.state) then before + [id] else before
  }

  predicate WasPublished(s: DescriptorState) {
    s == Published || s == SuspendedDescriptor || s == Deprecated || s == ArchivedDescriptor
  }

  /** The most recent descriptor that is or was published, the first of them if versions tie. */
  function LatestDescriptor(ds: seq<Descriptor>): Option<Descriptor> {
    if ds == [] then None
    else
      var rest := LatestDescriptor(ds[1..]);
      if WasPublished(ds[0].state) && (rest.None? || ds[0].version >= rest.value.version) then Some(ds[0]) else rest
  }

  function ValidateLatest(e: EService, id: DescriptorId,
                          allowed: set<DescriptorState>): Result<Descriptor, ServiceError>
  {
    var latest := LatestDescriptor(e.descriptors);
    if latest.None? || latest.value.id != id then Err(NotLatestDescriptor)
    else if latest.value.state !in allowed then Err(DescriptorNotInExpectedState)
    else Ok(latest.value)
  }

  function Flattened(groups: seq<seq<AttributeId>>): seq<AttributeId> {
    if groups == [] then [] else groups[0] + Flattened(groups[1..])
  }

  /** The agreement with the attributes of the descriptor that the consumer has. */
  function WithMatching(a: Agreement, e: EService, d: Descriptor, consumer: Tenant, now: int): Agreement {
    a.(certified := Matching(Flattened(d.attributes.certified), Certified(consumer.attributes)),
       declared := Matching(Flattened(d.attributes.declared), Declared(consumer.attributes)),
       verified := Matching(Flattened(d.attributes.verified), Verified(e.producer, now, consumer.attributes)))
  }

  /* ---- pieces shared by operations ---- */

  function Archive(a: Agreement, stamp: Stamp): Agreement {
    a.(state := Archived, stamps := a.stamps.(archiving := Some(stamp)))
  }

  /** The agreements of the same consumer and e-service that give way to a live one. */
  function ArchiveEvents(book: Book, ids: seq<AgreementId>, stamp: Stamp): seq<NewEvent>
    requires forall id :: id in ids ==> id in book
  {
    if ids == [] then []
    else
      var doc := book[ids[|ids| - 1]];
      ArchiveEvents(book, ids[..|ids| - 1], stamp)
      + [NewEvent(AgreementArchivedByUpgrade, Archive(doc.agreement, stamp), Some(doc.version))]
  }

  function Without(ids: seq<AgreementId>, id: AgreementId): (r: seq<AgreementId>)
    ensures forall x :: x in r <==> x in ids && x != id
  {
    if ids == [] then []
    else
      assert forall x :: x in ids <==> x in ids[..|ids| - 1] || x == ids[|ids| - 1];
      Without(ids[..|ids| - 1], id) + if ids[|ids| - 1] == id then [] else [ids[|ids| - 1]]
  }

  /** A certified attribute has been lost: the agreement is set aside and the operation fails. */
  function SetMissing(doc: Document, next: AgreementState): Option<NewEvent> {
    if next == MissingCertifiedAttributes && doc.agreement.suspendedByPlatform != Some(true) then
      Some(NewEvent(SetMissingCertifiedAttributesByPlatform,
                    doc.agreement.(state := MissingCertifiedAttributes, suspendedByPlatform := Some(true)),
                    Some(doc.version)))
    else None
  }

  function DelegationOf(w: World, e: EServiceId): Option<Delegation> {
    Lookup(w.delegations, e)
  }

  function DelegateOf(d: Option<Delegation>): Option<TenantId> {
    if d.Some? then Some(d.value.delegate) else None
  }

  function DelegationIdOf(d: Option<Delegation>): Option<DelegationId> {
    if d.Some? then Some(d.value.id) else None
  }

  /* ---- creation and submission ---- */

  function Create(book: Book, listing: seq<AgreementId>, w: World, auth: AuthData, eservice: EServiceId,
                  descriptor: DescriptorId, newId: AgreementId): Decided
    requires forall id :: id in listing ==> id in book
  {
    var e :- Retrieve(w.eservices, eservice, EServiceNotFound);
    var d :- ValidateLatest(e, descriptor, {Published});
    var _ :- Need(Related(book, listing, auth.organization, eservice, Conflicting) == [], AlreadyExists);
    var consumer :- Retrieve(w.tenants, auth.organization, TenantNotFound);
    var _ :- Need(e.producer == consumer.id || CertifiedSatisfied(d.attributes, consumer.attributes), MissingCertified);
    var a := Agreement(newId, eservice, descriptor, e.producer, auth.organization, Draft, [], [], [], None, None, None,
                       w.now, NO_STAMPS, None, None);
    Ok(Decision([NewEvent(AgreementAdded, a, None)], Ok(a)))
  }

  function SubmissionStamps(a: Agreement, s: AgreementState, stamp: Stamp): Stamps {
    if s == Pending then a.stamps.(submission := Some(stamp))
    else if s == Active then a.stamps.(submission := Some(stamp), activation := Some(stamp))
    else a.stamps
  }

  function Submitted(a: Agreement, e: EService, d: Descriptor, consumer: Tenant, state: AgreementState, stamp: Stamp,
                     byPlatform: bool, now: int): Agreement
  {
    var base := if state == Active then WithMatching(a, e, d, consumer, now)
      else a.(certified := [], declared := [], verified := []);
    base.(state := state, suspendedByPlatform := Some(byPlatform), stamps := SubmissionStamps(a, state, stamp))
  }

  function Submit(book: Book, listing: seq<AgreementId>, w: World, auth: AuthData, id: AgreementId): Decided
    requires forall x :: x in listing ==> x in book
  {
    var doc :- Retrieve(book, id, AgreementNotFound);
    var a := doc.agreement;
    var _ :- Need(IsConsumer(a, auth), OperationNotAllowed);
    var _ :- Need(a.state == Draft, NotInExpectedState);
    var _ :- Need(Related(book, listing, a.consumer, a.eservice,
                          s => s == Pending || s == MissingCertifiedAttributes) == [], AlreadyExists);
    var consumer :- Retrieve(w.tenants, a.consumer, TenantNotFound);
    var _ :- Need(consumer.hasContactEmail, ConsumerWithoutEmail);
    var e :- Retrieve(w.eservices, a.eservice, EServiceNotFound);
    var d :- ValidateLatest(e, a.descriptor, {Published, SuspendedDescriptor});
    var _ :- Retrieve(w.tenants, a.producer, TenantNotFound);
    DecideSubmission(book, listing, w, auth, doc, e, d, consumer)
  }

  /** What the attributes of the consumer make of a submission that may go ahead. */
  function DecideSubmission(book: Book, listing: seq<AgreementId>, w: World, auth: AuthData, doc: Document, e: EService,
                            d: Descriptor, consumer: Tenant): Decided
    requires forall x :: x in listing ==> x in book
  {
    var a, next := doc.agreement, NextState(doc.agreement, d, consumer.attributes, w.now);
    var byPlatform := PlatformFlag(next);
    if SetMissing(doc, next).Some? then Ok(Decision([SetMissing(doc, next).value], Err(SubmissionFailed)))
    else
      // The suspension flags that a draft may carry are not considered here.
      var state := StateByFlags(next, None, None, Some(byPlatform));
      var _ :- Need(state == Active || state == Pending, SubmissionFailed);
      var stamp := Stamp(auth.user, None, w.now);
      var b := Submitted(a, e, d, consumer, state, stamp, byPlatform, w.now);
      var others := Without(Related(book, listing, a.consumer, a.eservice, IsLive), a.id);
      Ok(Decision([NewEvent(if state == Active then AgreementActivated else AgreementSubmitted, b, Some(doc.version))]
                  + (if IsLive(state) then ArchiveEvents(book, others, stamp) else []), Ok(b)))
  }

  /* ---- activation ---- */

  function UnsuspendedStamps(a: Agreement, auth: AuthData, delegate: Option<TenantId>): Stamps {
    a.stamps.(suspensionByConsumer := if auth.organization == a.consumer then None else a.stamps.suspensionByConsumer,
              suspensionByProducer := if auth.organization == a.producer || Some(auth.organization) == delegate
                then None
                                      else a.stamps.suspensionByProducer)
  }

  /** The agreement after activation, `state` being what attributes and flags allow. */
  function Activated(a: Agreement, e: EService, d: Descriptor, consumer: Tenant, auth: AuthData,
                     delegation: Option<Delegation>,
                     state: AgreementState, byPlatform: bool, now: int): Agreement {
    var flagged := a.(state := state,
                      suspendedByConsumer := ConsumerFlag(a, auth.organization, Active),
                      suspendedByProducer := ProducerFlag(a, auth.organization, Active, DelegateOf(delegation)),
                      suspendedByPlatform := Some(byPlatform));
    if a.state == Pending && state == Active then
      WithMatching(flagged, e, d, consumer,
                   now).(stamps := a.stamps.(activation := Some(Stamp(auth.user, DelegationIdOf(delegation), now))))
    else
      flagged.(stamps := UnsuspendedStamps(a, auth, DelegateOf(delegation)), suspendedAt := if state == Active then None
               else a.suspendedAt)
  }

  /** A change of the platform flag that leaves the agreement suspended is an event of its own. */
  function PlatformEvents(b: Agreement, changed: bool, version: nat): seq<NewEvent> {
    if changed && b.state == Suspended then
      [NewEvent(if b.suspendedByPlatform == Some(true) then SuspendedByPlatform else UnsuspendedByPlatform, b,
                Some(version))]
    else []
  }

  /** The events of an activation, and whether the requester is one that may have caused them. */
  function ActivationEvents(first: bool, b: Agreement, byPlatformBefore: Option<bool>, version: nat, auth: AuthData,
                            delegate: Option<TenantId>):
    Result<seq<NewEvent>, ServiceError>
  {
    var changed := byPlatformBefore != b.suspendedByPlatform;
    var isProducer := auth.organization == b.producer || Some(auth.organization) == delegate;
    if first then Ok([NewEvent(AgreementActivated, b, Some(version))])
    else if !IsLive(b.state) || (!isProducer && auth.organization != b.consumer) then Err(UnexpectedRequester)
    else
      var name := if isProducer then UnsuspendedByProducer else UnsuspendedByConsumer;
      if b.state == Active then Ok([NewEvent(name, b, Some(version))])
      else
        Ok([NewEvent(name, b.(suspendedByPlatform := byPlatformBefore), Some(version))]
           + PlatformEvents(b, changed, version + 1))
  }

  function Activate(book: Book, listing: seq<AgreementId>, w: World, auth: AuthData, id: AgreementId): Decided
    requires forall x :: x in listing ==> x in book
  {
    var doc :- Retrieve(book, id, AgreementNotFound);
    var a, delegation := doc.agreement, DelegationOf(w, doc.agreement.eservice);
    var _ :- Need(IsConsumer(a, auth) || CanActAsProducer(a, auth, delegation), OperationNotAllowed);
    var _ :- Need(!(a.state == Pending && a.consumer == auth.organization && a.producer != a.consumer),
                  OperationNotAllowed);
    var _ :- Need(a.state == Pending || a.state == Suspended, NotInExpectedState);
    var e :- Retrieve(w.eservices, a.eservice, EServiceNotFound);
    var d :- RetrieveDescriptor(e, a.descriptor);
    var _ :- Need(d.state == Published || d.state == SuspendedDescriptor || d.state == Deprecated,
                  DescriptorNotInExpectedState);
    var consumer :- Retrieve(w.tenants, a.consumer, TenantNotFound);
    var _ :- Retrieve(w.tenants, a.producer, TenantNotFound);
    DecideActivation(book, listing, w, auth, doc, delegation, e, d, consumer)
  }

  /** What attributes and flags make of an activation that may go ahead. */
  function DecideActivation(book: Book, listing: seq<AgreementId>, w: World, auth: AuthData, doc: Document,
                            delegation: Option<Delegation>,
                            e: EService, d: Descriptor, consumer: Tenant): Decided
    requires forall x :: x in listing ==> x in book
  {
    var a, next := doc.agreement, NextState(doc.agreement, d, consumer.attributes, w.now);
    var byPlatform := PlatformFlag(next);
    if SetMissing(doc, next).Some? then Ok(Decision([SetMissing(doc, next).value], Err(ActivationFailed)))
    else
      var state := StateByFlags(next, ProducerFlag(a, auth.organization, Active, DelegateOf(delegation)),
                                ConsumerFlag(a, auth.organization, Active), Some(byPlatform));
      var _ :- Need(state != Draft && state != Pending && state != MissingCertifiedAttributes, ActivationFailed);
      var b := Activated(a, e, d, consumer, auth, delegation, state, byPlatform, w.now);
      var events :- ActivationEvents(a.state == Pending && state == Active, b, a.suspendedByPlatform, doc.version, auth,
                                     DelegateOf(delegation));
      var others := Without(Related(book, listing, a.consumer, a.eservice, IsLive), a.id);
      Ok(Decision(events + ArchiveEvents(book, others, Stamp(auth.user, None, w.now)), Ok(b)))
  }

  /* ---- suspension ---- */

  function SuspendedStamps(a: Agreement, auth: AuthData, delegate: Option<TenantId>, stamp: Stamp): Stamps {
    a.stamps.(suspensionByConsumer := if auth.organization == a.consumer then Some(stamp)
              else a.stamps.suspensionByConsumer,
              suspensionByProducer := if auth.organization == a.producer || Some(auth.organization) == delegate
                then Some(stamp)
                                      else a.stamps.suspensionByProducer)
  }

  function Suspend(book: Book, w: World, auth: AuthData, id: AgreementId): Decided {
    var doc :- Retrieve(book, id, AgreementNotFound);
    var a, delegation := doc.agreement, DelegationOf(w, doc.agreement.eservice);
    var _ :- Need(IsConsumer(a, auth) || CanActAsProducer(a, auth, delegation), OperationNotAllowed);
    var _ :- Need(IsLive(a.state), NotInExpectedState);
    var e :- Retrieve(w.eservices, a.eservice, EServiceNotFound);
    var d :- RetrieveDescriptor(e, a.descriptor);
    var consumer :- Retrieve(w.tenants, a.consumer, TenantNotFound);
    var byConsumer, byProducer := ConsumerFlag(a, auth.organization, Suspended),
      ProducerFlag(a, auth.organization, Suspended, DelegateOf(delegation));
    var state := StateByFlags(NextState(a, d, consumer.attributes, w.now), byProducer, byConsumer,
                              a.suspendedByPlatform);
    var b := a.(state := state, suspendedByConsumer := byConsumer, suspendedByProducer := byProducer,
                stamps := SuspendedStamps(a, auth, DelegateOf(delegation),
                                          Stamp(auth.user, DelegationIdOf(delegation), w.now)),
                suspendedAt := if a.suspendedAt.Some? then a.suspendedAt else Some(w.now));
    var isProducer := auth.organization == a.producer || Some(auth.organization) == DelegateOf(delegation);
    var _ :- Need(isProducer || auth.organization == a.consumer, UnexpectedRequester);
    Ok(Decision([NewEvent(if isProducer then SuspendedByProducer else SuspendedByConsumer, b, Some(doc.version))],
                Ok(b)))
  }

  /* ---- upgrade ---- */

  function FirstPublished(ds: seq<Descriptor>): Option<Descriptor> {
    if ds == [] then None else if ds[0].state == Published then Some(ds[0]) else FirstPublished(ds[1..])
  }

  function UpgradedAgreement(a: Agreement, e: EService, d: Descriptor, consumer: Tenant, newId: AgreementId,
                             stamp: Stamp, now: int): Agreement
  {
    WithMatching(a, e, d, consumer, now).(id := newId, descriptor := d.id, createdAt := now,
                                          suspendedByPlatform := None,
                                          rejectionReason := None, stamps := a.stamps.(upgrade := Some(stamp)))
  }

  /** The draft for the new descriptor keeps the consumer's and the producer's suspension flags. */
  function NewDraft(a: Agreement, d: Descriptor, newId: AgreementId, now: int): Agreement {
    a.(id := newId, descriptor := d.id, state := Draft, createdAt := now, certified := [], declared := [],
       verified := [],
       suspendedByPlatform := None, rejectionReason := None,
       stamps := NO_STAMPS.(suspensionByConsumer := a.stamps.suspensionByConsumer,
                            suspensionByProducer := a.stamps.suspensionByProducer))
  }

  /** Whether the consumer's attributes let the agreement move to the descriptor at once. */
  predicate CanBeUpgraded(a: Agreement, d: Descriptor, consumer: Tenant, now: int) {
    VerifiedSatisfied(a.producer, now, d.attributes, consumer.attributes)
      && DeclaredSatisfied(d.attributes, consumer.attributes)
  }

  function Upgrade(book: Book, listing: seq<AgreementId>, w: World, auth: AuthData, id: AgreementId,
                   newId: AgreementId): Decided
    requires forall x :: x in listing ==> x in book
  {
    var doc :- Retrieve(book, id, AgreementNotFound);
    var a := doc.agreement;
    var _ :- Need(IsConsumer(a, auth), OperationNotAllowed);
    var _ :- Need(IsLive(a.state), NotInExpectedState);
    var e :- Retrieve(w.eservices, a.eservice, EServiceNotFound);
    var _ :- Need(FirstPublished(e.descriptors).Some?, PublishedDescriptorNotFound);
    var d := FirstPublished(e.descriptors).value;
    var current :- RetrieveDescriptor(e, a.descriptor);
    var _ :- Need(d.version > current.version, NoNewerDescriptor);
    var consumer :- Retrieve(w.tenants, a.consumer, TenantNotFound);
    var _ :- Retrieve(w.tenants, a.producer, TenantNotFound);
    var _ :- Need(e.producer == a.consumer || CertifiedSatisfied(d.attributes, consumer.attributes), MissingCertified);
    if CanBeUpgraded(a, d, consumer, w.now) then
      var delegation := DelegationOf(w, e.id);
      var stamp := Stamp(auth.user,
                         if Some(auth.organization) == DelegateOf(delegation) then DelegationIdOf(delegation)
                           else None, w.now);
      var b := UpgradedAgreement(a, e, d, consumer, newId, stamp, w.now);
      Ok(Decision([NewEvent(AgreementArchivedByUpgrade, Archive(a, stamp), Some(doc.version)),
                   NewEvent(AgreementUpgraded, b, None)], Ok(b)))
    else
      var _ :- Need(Related(book, listing, a.consumer, a.eservice, s => s == Draft) == [], AlreadyExists);
      var b := NewDraft(a, d, newId, w.now);
      Ok(Decision([NewEvent(AgreementAdded, b, None)], Ok(b)))
  }

  /* ---- the remaining operations ---- */

  function ArchiveByConsumer(book: Book, w: World, auth: AuthData, id: AgreementId): Decided {
    var doc :- Retrieve(book, id, AgreementNotFound);
    var _ :- Need(IsConsumer(doc.agreement, auth), OperationNotAllowed);
    var _ :- Need(IsLive(doc.agreement.state), NotInExpectedState);
    var b := Archive(doc.agreement, Stamp(auth.user, None, w.now));
    Ok(Decision([NewEvent(AgreementArchivedByConsumer, b, Some(doc.version))], Ok(b)))
  }

  function Reject(book: Book, w: World, auth: AuthData, id: AgreementId, reason: string): Decided {
    var doc :- Retrieve(book, id, AgreementNotFound);
    var a, delegation := doc.agreement, DelegationOf(w, doc.agreement.eservice);
    var _ :- Need(CanActAsProducer(a, auth, delegation), OperationNotAllowed);
    var _ :- Need(a.state == Pending, NotInExpectedState);
    var e :- Retrieve(w.eservices, a.eservice, EServiceNotFound);
    var d :- RetrieveDescriptor(e, a.descriptor);
    var consumer :- Retrieve(w.tenants, a.consumer, TenantNotFound);
    var b := WithMatching(a, e, d, consumer, w.now).(
               state := Rejected, rejectionReason := Some(reason),
               suspendedByConsumer := None, suspendedByProducer := None, suspendedByPlatform := None,
               stamps := a.stamps.(rejection := Some(Stamp(auth.user, DelegationIdOf(delegation), w.now))));
    Ok(Decision([NewEvent(AgreementRejected, b, Some(doc.version))], Ok(b)))
  }

  function Clone(book: Book, listing: seq<AgreementId>, w: World, auth: AuthData, id: AgreementId,
                 newId: AgreementId): Decided
    requires forall x :: x in listing ==> x in book
  {
    var doc :- Retrieve(book, id, AgreementNotFound);
    var a := doc.agreement;
    var _ :- Need(IsConsumer(a, auth), OperationNotAllowed);
    var _ :- Need(a.state == Rejected, NotInExpectedState);
    var _ :- Need(Related(book, listing, auth.organization, a.eservice, Conflicting) == [], AlreadyExists);
    var e :- Retrieve(w.eservices, a.eservice, EServiceNotFound);
    var d :- RetrieveDescriptor(e, a.descriptor);
    var consumer :- Retrieve(w.tenants, a.consumer, TenantNotFound);
    var _ :- Need(CertifiedSatisfied(d.attributes, consumer.attributes), MissingCertified);
    var b := a.(id := newId, certified := [], declared := [], verified := [], state := Draft, createdAt := w.now,
                stamps := NO_STAMPS);
    Ok(Decision([NewEvent(AgreementAdded, b, None)], Ok(b)))
  }

  function Delete(book: Book, auth: AuthData, id: AgreementId): Decided {
    var doc :- Retrieve(book, id, AgreementNotFound);
    var _ :- Need(IsConsumer(doc.agreement, auth), OperationNotAllowed);
    var _ :- Need(doc.agreement.state == Draft || doc.agreement.state == MissingCertifiedAttributes,
                  NotInExpectedState);
    Ok(Decision([NewEvent(AgreementDeleted, doc.agreement, Some(doc.version))], Ok(doc.agreement)))
  }

  function NameOf(n: PlatformEventName): EventName {
    match n
    case AgreementSuspendedByPlatform => SuspendedByPlatform
    case AgreementUnsuspendedByPlatform => UnsuspendedByPlatform
    case AgreementSetMissingCertifiedAttributesByPlatform => SetMissingCertifiedAttributesByPlatform
    case AgreementSetDraftByPlatform => SetDraftByPlatform
  }

  /** The events of a recomputation, each stored in a transaction of its own. */
  function RecomputeEvents(book: Book, listing: seq<AgreementId>, w: World, attribute: AttributeId,
                           consumer: Tenant): seq<NewEvent>
    requires forall x :: x in listing ==> x in book
  {
    if listing == [] then []
    else
      var doc := book[listing[|listing| - 1]];
      var r := RecomputeOne(doc.agreement, attribute, consumer, w.eservices, w.now);
      RecomputeEvents(book, listing[..|listing| - 1], w, attribute, consumer)
      + if r.Emitted? then [NewEvent(NameOf(r.name), r.agreement, Some(doc.version))] else []
  }

  function Recompute(book: Book, listing: seq<AgreementId>, w: World, attribute: AttributeId,
                     consumer: Tenant): Result<seq<NewEvent>, ServiceError>
    requires forall x :: x in listing ==> x in book
  {
    var _ :- Need(forall x ::
                  x in listing && book[x].agreement.consumer == consumer.id && Updatable(book[x].agreement.state) ==>
                    book[x].agreement.eservice in w.eservices, EServiceNotFound);
    Ok(RecomputeEvents(book, listing, w, attribute, consumer))
  }
}
