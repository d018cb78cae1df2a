/** What the operations of the agreement service decide, told from the attributes, the requester and the
    read model alone: when each succeeds, what it stores then, and what a failing one stores. */
module AgreementDecisions {
  import opened Wrappers
  import opened Domain
  import opened AttributeSatisfaction
  import opened AgreementFsm
  import opened AgreementEventStore
  import opened AgreementProcess
  import opened AgreementLifecycle
  import opened AgreementOperations

  /* ---- what the consumer's attributes satisfy ---- */

  predicate IsCertified(attributes: seq<TenantAttribute>, id: AttributeId) {
    exists a :: a in attributes && a.CertifiedAttribute? && a.id == id && a.revocation.None?
  }

  predicate IsDeclared(attributes: seq<TenantAttribute>, id: AttributeId) {
    exists a :: a in attributes && a.DeclaredAttribute? && a.id == id && a.revocation.None?
  }

  /** Verified by the producer, who has not revoked it since; an extension overrides the expiration. */
  predicate IsVerified(attributes: seq<TenantAttribute>, producer: TenantId, now: int, id: AttributeId) {
    exists a, v ::
      a in attributes && a.VerifiedAttribute? && a.id == id && v in a.verifiedBy && v.id == producer
      && producer !in a.revokedBy
      && (v.extension.Some? ==> now < v.extension.value)
      && (v.extension.None? && v.expiration.Some? ==> now < v.expiration.value)
  }

  /** Of every group that is not empty the consumer has an attribute. */
  predicate CertifiedMet(r: Requirements, attributes: seq<TenantAttribute>) {
    forall g :: g in r.certified && g != [] ==> exists id :: id in g && IsCertified(attributes, id)
  }

  predicate DeclaredMet(r: Requirements, attributes: seq<TenantAttribute>) {
    forall g :: g in r.declared && g != [] ==> exists id :: id in g && IsDeclared(attributes, id)
  }

  predicate VerifiedMet(r: Requirements, attributes: seq<TenantAttribute>, producer: TenantId, now: int) {
    forall g :: g in r.verified && g != [] ==> exists id :: id in g && IsVerified(attributes, producer, now, id)
  }

  predicate AllMet(r: Requirements, attributes: seq<TenantAttribute>, producer: TenantId, now: int) {
    CertifiedMet(r, attributes) && DeclaredMet(r, attributes) && VerifiedMet(r, attributes, producer, now)
  }

  lemma HeldExactly(attributes: seq<TenantAttribute>, producer: TenantId, now: int, id: AttributeId)
    ensures id in Certified(attributes) <==> IsCertified(attributes, id)
    ensures id in Declared(attributes) <==> IsDeclared(attributes, id)
    ensures id in Verified(producer, now, attributes) <==> IsVerified(attributes, producer, now, id)
  {
    KeptExactly(attributes, CountsAsCertified, id);
    KeptExactly(attributes, CountsAsDeclared, id);
    KeptExactly(attributes, (a: TenantAttribute) => CountsAsVerified(producer, now, a), id);
  }

  /** The three tests of the service are these. */
  lemma SatisfactionExactly(r: Requirements, attributes: seq<TenantAttribute>, producer: TenantId, now: int)
    ensures CertifiedSatisfied(r, attributes) <==> CertifiedMet(r, attributes)
    ensures DeclaredSatisfied(r, attributes) <==> DeclaredMet(r, attributes)
    ensures VerifiedSatisfied(producer, now, r, attributes) <==> VerifiedMet(r, attributes, producer, now)
  {
    forall id
      ensures id in Certified(attributes) <==> IsCertified(attributes, id)
      ensures id in Declared(attributes) <==> IsDeclared(attributes, id)
      ensures id in Verified(producer, now, attributes) <==> IsVerified(attributes, producer, now, id)
    {
      HeldExactly(attributes, producer, now, id);
    }
    SatisfiedExactly(r.certified, Certified(attributes));
    SatisfiedExactly(r.declared, Declared(attributes));
    SatisfiedExactly(r.verified, Verified(producer, now, attributes));
    MetThrough(r.certified, Certified(attributes));
    MetThrough(r.declared, Declared(attributes));
    MetThrough(r.verified, Verified(producer, now, attributes));
  }

  lemma MetThrough(groups: seq<seq<AttributeId>>, held: seq<AttributeId>)
    ensures (forall g :: g in groups && |g| > 0 ==> exists a :: a in g && a in held) <==>
              (forall g :: g in groups && g != [] ==> exists a :: a in g && a in held)
  {
  }

  /* ---- the state machine ---- */

  /** The state that the attributes call for, from every state. */
  lemma NextStateExactly(a: Agreement, d: Descriptor, attributes: seq<TenantAttribute>, now: int)
    ensures var next := NextState(a, d, attributes, now);
            var certified, declared := CertifiedMet(d.attributes, attributes), DeclaredMet(d.attributes, attributes);
            var all := AllMet(d.attributes, attributes, a.producer, now);
            && (a.state == Draft ==>
                  && (next == Active <==> a.consumer == a.producer || (all && d.approvalPolicy == Some(Automatic)))
                  && (next == MissingCertifiedAttributes <==> a.consumer != a.producer && !certified)
                  && (next == Draft <==> a.consumer != a.producer && certified && !declared)
                  && (next == Pending <==> a.consumer != a.producer && certified && declared
                                           && !(all && d.approvalPolicy == Some(Automatic))))
            && (a.state == Pending ==>
                  && (next == Active <==> all)
                  && (next == MissingCertifiedAttributes <==> !certified)
                  && (next == Draft <==> certified && !declared)
                  && (next == Pending <==> certified && declared && !all))
            && (a.state in {Active, Suspended} ==>
                  next == if a.consumer == a.producer || all then Active else Suspended)
            && (a.state == MissingCertifiedAttributes ==>
                  next == if certified then Draft else MissingCertifiedAttributes)
            && (a.state in {Archived, Rejected} ==> next == a.state)
  {
    SatisfactionExactly(d.attributes, attributes, a.producer, now);
  }

  /** The recomputation of one agreement: which event it emits, if any. */
  lemma RecomputationExactly(a: Agreement, d: Descriptor, attributes: seq<TenantAttribute>, now: int)
    ensures var r, certified := UpdateState(a, d, attributes, now), CertifiedMet(d.attributes, attributes);
            var entitled := a.consumer == a.producer || AllMet(d.attributes, attributes, a.producer, now);
            var byParty := a.suspendedByConsumer == Some(true) || a.suspendedByProducer == Some(true);
            && (a.state in {Active, Suspended} ==>
                  if a.suspendedByPlatform == Some(!entitled) || (a.state == Active && entitled && !byParty)
                  then r == Unchanged
                  else r == Emitted(if entitled then AgreementUnsuspendedByPlatform else AgreementSuspendedByPlatform,
                                    a.(state := if entitled && !byParty then Active else Suspended,
                                       suspendedByPlatform := Some(!entitled))))
            && (a.state in {Draft, Pending} ==>
                  if certified || (a.state == Draft && a.consumer == a.producer) || a.suspendedByPlatform == Some(true)
                  then r == Unchanged
                  else r == Emitted(AgreementSetMissingCertifiedAttributesByPlatform,
                                    a.(state := MissingCertifiedAttributes, suspendedByPlatform := Some(true))))
            && (a.state == MissingCertifiedAttributes ==>
                  if certified && a.suspendedByPlatform != Some(false)
                  then r == Emitted(AgreementSetDraftByPlatform, a.(state := Draft, suspendedByPlatform := Some(false)))
                  else r == Unchanged)
            && (a.state in {Archived, Rejected} ==> r == Unchanged)
  {
    SatisfactionExactly(d.attributes, attributes, a.producer, now);
  }

  /** Some descriptor of the e-service asks for the attribute. */
  predicate AsksFor(e: EService, attribute: AttributeId) {
    exists d :: d in e.descriptors
      && exists g :: g in d.attributes.certified + d.attributes.declared + d.attributes.verified && attribute in g
  }

  /** The recomputation for an attribute is about the consumer's agreements that are not at their end, on
      e-services that ask for the attribute. */
  predicate Concerned(a: Agreement, attribute: AttributeId, consumer: Tenant, eservices: map<EServiceId, EService>) {
    && a.consumer == consumer.id && a.state !in {Archived, Rejected}
    && a.eservice in eservices && AsksFor(eservices[a.eservice], attribute)
  }

  lemma UpdatableExactly(s: AgreementState)
    ensures Updatable(s) <==> s !in {Archived, Rejected}
  {
    assert Suspended in AllowedTransitions(Active) && Active in AllowedTransitions(Suspended);
    assert Draft in AllowedTransitions(MissingCertifiedAttributes);
    assert MissingCertifiedAttributes in AllowedTransitions(Draft);
    assert MissingCertifiedAttributes in AllowedTransitions(Pending);
  }

  lemma AskedExactly(e: EService, attribute: AttributeId)
    ensures ContainsAttribute(attribute, e) <==> AsksFor(e, attribute)
  {
    forall d | d in e.descriptors
      ensures (exists g ::
                 g in d.attributes.certified + d.attributes.declared + d.attributes.verified && attribute in g)
              <==> InGroups(attribute, d.attributes.certified) || InGroups(attribute, d.attributes.declared)
                   || InGroups(attribute, d.attributes.verified)
    {
    }
  }

  lemma ConcernedExactly(a: Agreement, attribute: AttributeId, consumer: Tenant, eservices: map<EServiceId, EService>,
                         now: int)
    ensures var r := RecomputeOne(a, attribute, consumer, eservices, now);
            if !Concerned(a, attribute, consumer, eservices) then r == Unchanged
            else
              match FindDescriptor(eservices[a.eservice].descriptors, a.descriptor)
              case None => r == Unchanged
              case Some(d) => r == UpdateState(a, d, consumer.attributes, now)
  {
    UpdatableExactly(a.state);
    if a.eservice in eservices {
      AskedExactly(eservices[a.eservice], attribute);
    }
  }

  function EventFor(n: PlatformEventName): EventName {
    if n == AgreementSuspendedByPlatform then SuspendedByPlatform
    else if n == AgreementUnsuspendedByPlatform then UnsuspendedByPlatform
    else if n == AgreementSetDraftByPlatform then SetDraftByPlatform
    else SetMissingCertifiedAttributesByPlatform
  }

  /** One event for each agreement that the recomputation changes, and no other. */
  lemma {:induction false} EventsRecomputed(book: Book, listing: seq<AgreementId>, w: World, attribute: AttributeId,
                                            consumer: Tenant, e: NewEvent)
    requires forall x :: x in listing ==> x in book
    ensures e in RecomputeEvents(book, listing, w, attribute, consumer)
            <==> exists x ::
                   x in listing
                   && var r := RecomputeOne(book[x].agreement, attribute, consumer, w.eservices, w.now);
                      r.Emitted? && e == NewEvent(EventFor(r.name), r.agreement, Some(book[x].version))
  {
    if listing != [] {
      var before, last := listing[..|listing| - 1], listing[|listing| - 1];
      assert forall x :: x in listing <==> x in before || x == last;
      EventsRecomputed(book, before, w, attribute, consumer, e);
    }
  }

  /* ---- submission and activation ---- */

  /** The recomputation fails exactly if the e-service of one of the consumer's agreements that are not at
      their end is not found. */
  lemma RecomputationFails(book: Book, listing: seq<AgreementId>, w: World, attribute: AttributeId, consumer: Tenant)
    requires forall x :: x in listing ==> x in book
    ensures var r := Recompute(book, listing, w, attribute, consumer);
            && (r.Err? <==> exists x ::
                  x in listing && book[x].agreement.consumer == consumer.id
                  && book[x].agreement.state !in {Archived, Rejected} && book[x].agreement.eservice !in w.eservices)
            && (r.Ok? ==> r.value == RecomputeEvents(book, listing, w, attribute, consumer))
  {
    forall x | x in listing ensures Updatable(book[x].agreement.state) <==>
        book[x].agreement.state !in {Archived, Rejected} {
      UpdatableExactly(book[x].agreement.state);
    }
  }

  /** A certified attribute is missing: the agreement is set aside, unless it is already, and the operation
      fails all the same. */
  function SetAside(doc: Document, error: ServiceError): Decided {
    if doc.agreement.suspendedByPlatform == Some(true) then Err(error)
    else
      Ok(Decision([NewEvent(SetMissingCertifiedAttributesByPlatform,
                            doc.agreement.(state := MissingCertifiedAttributes, suspendedByPlatform := Some(true)),
                            Some(doc.version))], Err(error)))
  }

  /** The agreement lists what the consumer has of what the descriptor asks for. */
  ghost predicate ListsHeld(b: Agreement, e: EService, d: Descriptor, consumer: Tenant, now: int) {
    && (forall id :: id in b.certified <==>
          InGroups(id, d.attributes.certified) && IsCertified(consumer.attributes, id))
    && (forall id :: id in b.declared <==> InGroups(id, d.attributes.declared) && IsDeclared(consumer.attributes, id))
    && (forall id :: id in b.verified <==>
          InGroups(id, d.attributes.verified) && IsVerified(consumer.attributes, e.producer, now, id))
  }

  lemma MatchingListsHeld(a: Agreement, e: EService, d: Descriptor, consumer: Tenant, now: int)
    ensures ListsHeld(WithMatching(a, e, d, consumer, now), e, d, consumer, now)
  {
    var b := WithMatching(a, e, d, consumer, now);
    forall id
      ensures id in b.certified <==> InGroups(id, d.attributes.certified) && IsCertified(consumer.attributes, id)
      ensures id in b.declared <==> InGroups(id, d.attributes.declared) && IsDeclared(consumer.attributes, id)
      ensures id in b.verified <==>
                InGroups(id, d.attributes.verified) && IsVerified(consumer.attributes, e.producer, now, id)
    {
      MatchingAttributesExactly(a, e, d, consumer, now, id);
      HeldExactly(consumer.attributes, e.producer, now, id);
      KeptExactly(consumer.attributes, CountsAsCertified, id);
      KeptExactly(consumer.attributes, CountsAsDeclared, id);
      KeptExactly(consumer.attributes, (t: TenantAttribute) => CountsAsVerified(e.producer, now, t), id);
    }
  }

  /** A submission that may go ahead: it activates the agreement at once for the producer itself or under
      automatic approval, leaves it pending if only verified attributes or the approval are missing, and
      fails otherwise. */
  lemma SubmissionExactly(book: Book, listing: seq<AgreementId>, w: World, auth: AuthData, doc: Document, e: EService,
                          d: Descriptor, consumer: Tenant)
    requires (forall x :: x in listing ==> x in book) && doc.agreement.state == Draft
    ensures var a, stamp := doc.agreement, Some(Stamp(auth.user, None, w.now));
            var r := DecideSubmission(book, listing, w, auth, doc, e, d, consumer);
            var own, all := a.consumer == a.producer, AllMet(d.attributes, consumer.attributes, a.producer, w.now);
            if own || (all && d.approvalPolicy == Some(Automatic)) then
              && r.Ok? && r.value.answer.Ok?
              && var b := r.value.answer.value;
              && b == a.(state := Active, suspendedByPlatform := Some(false),
                         certified := b.certified, declared := b.declared, verified := b.verified,
                         stamps := a.stamps.(submission := stamp, activation := stamp))
              && ListsHeld(b, e, d, consumer, w.now)
              && r.value.events != [] && r.value.events[0] == NewEvent(AgreementActivated, b, Some(doc.version))
            else if !CertifiedMet(d.attributes, consumer.attributes) then r == SetAside(doc, SubmissionFailed)
            else if !DeclaredMet(d.attributes, consumer.attributes) then r == Err(SubmissionFailed)
            else
              var b := a.(state := Pending, suspendedByPlatform := Some(false),
                          certified := [], declared := [], verified := [],
                          stamps := a.stamps.(submission := stamp));
              r == Ok(Decision([NewEvent(AgreementSubmitted, b, Some(doc.version))], Ok(b)))
  {
    NextStateExactly(doc.agreement, d, consumer.attributes, w.now);
    MatchingListsHeld(doc.agreement, e, d, consumer, w.now);
    var r := DecideSubmission(book, listing, w, auth, doc, e, d, consumer);
    assert r.Ok? && r.value.answer.Ok? && r.value.answer.value.state == Pending ==>
             r.value.events == [NewEvent(AgreementSubmitted, r.value.answer.value, Some(doc.version))];
  }

  /** An activation of a pending agreement by one of its parties succeeds if and only if all three kinds of
      attributes are satisfied.  It ends active unless the other party has suspended the draft. */
  lemma PendingActivationExactly(book: Book, listing: seq<AgreementId>, w: World, auth: AuthData, doc: Document,
                                 delegation: Option<Delegation>, e: EService, d: Descriptor, consumer: Tenant)
    requires (forall x :: x in listing ==> x in book) && doc.agreement.state == Pending
    requires auth.organization == doc.agreement.consumer
             || ActsAsProducer(doc.agreement, auth.organization, DelegateOf(delegation))
    ensures var a, delegate := doc.agreement, DelegateOf(delegation);
            var r := DecideActivation(book, listing, w, auth, doc, delegation, e, d, consumer);
            && ((r.Ok? && r.value.answer.Ok?) <==> AllMet(d.attributes, consumer.attributes, a.producer, w.now))
            && (!CertifiedMet(d.attributes, consumer.attributes) ==> r == SetAside(doc, ActivationFailed))
            && (CertifiedMet(d.attributes, consumer.attributes) ==>
                  AllMet(d.attributes, consumer.attributes, a.producer, w.now) || r == Err(ActivationFailed))
            && (r.Ok? && r.value.answer.Ok? ==>
                  var b := r.value.answer.value;
                  b.state == if SuspendedByOther(a, auth.organization, delegate) then Suspended else Active)
  {
    NextStateExactly(doc.agreement, d, consumer.attributes, w.now);
  }

  /** The agreement that a first activation stores. */
  lemma FirstActivationExactly(book: Book, listing: seq<AgreementId>, w: World, auth: AuthData, doc: Document,
                               delegation: Option<Delegation>, e: EService, d: Descriptor, consumer: Tenant)
    requires (forall x :: x in listing ==> x in book) && doc.agreement.state == Pending
    requires AllMet(d.attributes, consumer.attributes, doc.agreement.producer, w.now)
    requires !SuspendedByOther(doc.agreement, auth.organization, DelegateOf(delegation))
    ensures var a, delegate := doc.agreement, DelegateOf(delegation);
            var r := DecideActivation(book, listing, w, auth, doc, delegation, e, d, consumer);
            && r.Ok? && r.value.answer.Ok?
            && var b := r.value.answer.value;
            && b == a.(state := Active, certified := b.certified, declared := b.declared, verified := b.verified,
                       suspendedByConsumer :=
                         if auth.organization == a.consumer then Some(false) else a.suspendedByConsumer,
                       suspendedByProducer :=
                         if ActsAsProducer(a, auth.organization, delegate) then Some(false) else a.suspendedByProducer,
                       suspendedByPlatform := Some(false),
                       stamps := a.stamps.(activation :=
                         Some(Stamp(auth.user, if delegation.Some? then Some(delegation.value.id) else None, w.now))))
            && ListsHeld(b, e, d, consumer, w.now)
            && r.value.events != [] && r.value.events[0] == NewEvent(AgreementActivated, b, Some(doc.version))
  {
    NextStateExactly(doc.agreement, d, consumer.attributes, w.now);
    MatchingListsHeld(doc.agreement, e, d, consumer, w.now);
  }

  /** The agreements that give way: the other live ones of the consumer for the e-service, each archived. */
  predicate GivesWay(book: Book, a: Agreement, stamp: Stamp, e: NewEvent) {
    exists x :: x in book && x != a.id
                && book[x].agreement.consumer == a.consumer && book[x].agreement.eservice == a.eservice
                && book[x].agreement.state in {Active, Suspended}
                && e == NewEvent(AgreementArchivedByUpgrade,
                                 book[x].agreement.(state := Archived,
                                                    stamps := book[x].agreement.stamps.(archiving := Some(stamp))),
                                 Some(book[x].version))
  }

  lemma {:induction false} ArchivedEach(book: Book, ids: seq<AgreementId>, stamp: Stamp, e: NewEvent)
    requires forall x :: x in ids ==> x in book
    ensures e in ArchiveEvents(book, ids, stamp) <==>
              exists x :: x in ids
                && e == NewEvent(AgreementArchivedByUpgrade,
                                 book[x].agreement.(state := Archived,
                                                    stamps := book[x].agreement.stamps.(archiving := Some(stamp))),
                                 Some(book[x].version))
  {
    if ids != [] {
      var before, last := ids[..|ids| - 1], ids[|ids| - 1];
      assert forall x :: x in ids <==> x in before || x == last;
      ArchivedEach(book, before, stamp, e);
    }
  }

  lemma GivingWayExactly(book: Book, listing: seq<AgreementId>, a: Agreement, stamp: Stamp, e: NewEvent)
    requires Lists(listing, book)
    ensures e in ArchiveEvents(book, Without(Related(book, listing, a.consumer, a.eservice, IsLive), a.id), stamp)
            <==> GivesWay(book, a, stamp, e)
  {
    ArchivedEach(book, Without(Related(book, listing, a.consumer, a.eservice, IsLive), a.id), stamp, e);
  }

  /** What an activation announces for an agreement that was not pending, or stays suspended by the other
      party: who has unsuspended it, and then the change of the platform's flag if that leaves it suspended. */
  function Announced(a: Agreement, b: Agreement, isProducer: bool, entitled: bool, version: nat): seq<NewEvent> {
    var name := if isProducer then UnsuspendedByProducer else UnsuspendedByConsumer;
    if b.state == Active then [NewEvent(name, b, Some(version))]
    else if a.suspendedByPlatform == Some(!entitled) then [NewEvent(name, b, Some(version))]
    else
      [NewEvent(name, b.(suspendedByPlatform := a.suspendedByPlatform), Some(version)),
       NewEvent(if entitled then UnsuspendedByPlatform else SuspendedByPlatform, b, Some(version + 1))]
  }

  function Reactivated(auth: AuthData, a: Agreement, delegation: Option<Delegation>, e: EService, d: Descriptor,
                       consumer: Tenant, now: int, entitled: bool): Agreement
  {
    var active := entitled && !SuspendedByOther(a, auth.organization, DelegateOf(delegation));
    Activated(a, e, d, consumer, auth, delegation, if active then Active else Suspended, !entitled, now)
  }

  lemma ReactivatedExactly(auth: AuthData, a: Agreement, delegation: Option<Delegation>, e: EService, d: Descriptor,
                           consumer: Tenant, now: int, entitled: bool)
    requires a.state == Suspended
    requires entitled == (a.consumer == a.producer || AllMet(d.attributes, consumer.attributes, a.producer, now))
    ensures var next := NextState(a, d, consumer.attributes, now);
            && PlatformFlag(next) == !entitled && next in {Active, Suspended}
            && StateByFlags(next, ProducerFlag(a, auth.organization, Active, DelegateOf(delegation)),
                            ConsumerFlag(a, auth.organization, Active), Some(!entitled))
               == Reactivated(auth, a, delegation, e, d, consumer, now, entitled).state
  {
    NextStateExactly(a, d, consumer.attributes, now);
  }

  lemma AnnouncedExactly(auth: AuthData, a: Agreement, b: Agreement, delegate: Option<TenantId>, entitled: bool,
                         version: nat)
    requires b.suspendedByPlatform == Some(!entitled) && b.state in {Active, Suspended}
    requires b.producer == a.producer && b.consumer == a.consumer
    requires auth.organization == a.consumer || ActsAsProducer(a, auth.organization, delegate)
    ensures ActivationEvents(false, b, a.suspendedByPlatform, version, auth, delegate)
            == Ok(Announced(a, b, ActsAsProducer(a, auth.organization, delegate), entitled, version))
  {
    var name := if ActsAsProducer(a, auth.organization, delegate) then UnsuspendedByProducer else UnsuspendedByConsumer;
    var main := NewEvent(name, b.(suspendedByPlatform := a.suspendedByPlatform), Some(version));
    var more := NewEvent(if entitled then UnsuspendedByPlatform else SuspendedByPlatform, b, Some(version + 1));
    assert [main] + [] == [main] && [main] + [more] == [main, more];
    if a.suspendedByPlatform == Some(!entitled) {
      assert b.(suspendedByPlatform := a.suspendedByPlatform) == b;
    }
  }

  lemma DecidedReactivation(book: Book, listing: seq<AgreementId>, w: World, auth: AuthData, doc: Document,
                            delegation: Option<Delegation>, e: EService, d: Descriptor, consumer: Tenant,
                            entitled: bool, b: Agreement, main: seq<NewEvent>)
    requires Lists(listing, book) && doc.agreement.state == Suspended
    requires var next := NextState(doc.agreement, d, consumer.attributes, w.now);
             && PlatformFlag(next) == !entitled && next in {Active, Suspended}
             && StateByFlags(next, ProducerFlag(doc.agreement, auth.organization, Active, DelegateOf(delegation)),
                             ConsumerFlag(doc.agreement, auth.organization, Active), Some(!entitled)) == b.state
    requires b == Activated(doc.agreement, e, d, consumer, auth, delegation, b.state, !entitled, w.now)
    requires ActivationEvents(false, b, doc.agreement.suspendedByPlatform, doc.version, auth, DelegateOf(delegation))
             == Ok(main)
    ensures var a, stamp := doc.agreement, Stamp(auth.user, None, w.now);
            DecideActivation(book, listing, w, auth, doc, delegation, e, d, consumer)
            == Ok(Decision(main + ArchiveEvents(book, Without(Related(book, listing, a.consumer, a.eservice, IsLive),
                                                              a.id), stamp), Ok(b)))
  {
  }

  /** The activation of a suspended agreement by one of its parties: it is active again if the consumer is
      entitled and the other party has not suspended it, and suspended otherwise. */
  lemma ReactivationExactly(book: Book, listing: seq<AgreementId>, w: World, auth: AuthData, doc: Document,
                            delegation: Option<Delegation>, e: EService, d: Descriptor, consumer: Tenant)
    returns (b: Agreement, rest: seq<NewEvent>)
    requires Lists(listing, book) && doc.agreement.state == Suspended
    requires auth.organization == doc.agreement.consumer
             || ActsAsProducer(doc.agreement, auth.organization, DelegateOf(delegation))
    ensures var a, delegate := doc.agreement, DelegateOf(delegation);
            var entitled := a.consumer == a.producer || AllMet(d.attributes, consumer.attributes, a.producer, w.now);
            && b.state == (if entitled && !SuspendedByOther(a, auth.organization, delegate) then Active else Suspended)
            && b.suspendedByPlatform == Some(!entitled)
            && DecideActivation(book, listing, w, auth, doc, delegation, e, d, consumer)
               == Ok(Decision(Announced(a, b, ActsAsProducer(a, auth.organization, delegate), entitled, doc.version)
                              + rest, Ok(b)))
    ensures forall x :: x in rest <==> GivesWay(book, doc.agreement, Stamp(auth.user, None, w.now), x)
  {
    var a, stamp := doc.agreement, Stamp(auth.user, None, w.now);
    var entitled := a.consumer == a.producer || AllMet(d.attributes, consumer.attributes, a.producer, w.now);
    b := Reactivated(auth, a, delegation, e, d, consumer, w.now, entitled);
    var main := Announced(a, b, ActsAsProducer(a, auth.organization, DelegateOf(delegation)), entitled, doc.version);
    ReactivatedExactly(auth, a, delegation, e, d, consumer, w.now, entitled);
    AnnouncedExactly(auth, a, b, DelegateOf(delegation), entitled, doc.version);
    DecidedReactivation(book, listing, w, auth, doc, delegation, e, d, consumer, entitled, b, main);
    rest := ArchiveEvents(book, Without(Related(book, listing, a.consumer, a.eservice, IsLive), a.id), stamp);
    forall x ensures x in rest <==> GivesWay(book, a, stamp, x) {
      GivingWayExactly(book, listing, a, stamp, x);
    }
  }

  /** A first activation, and a submission that activates, announce that first; then each other live
      agreement gives way. */
  lemma OthersGiveWay(book: Book, listing: seq<AgreementId>, w: World, auth: AuthData, doc: Document,
                      delegation: Option<Delegation>, e: EService, d: Descriptor, consumer: Tenant, x: NewEvent)
    requires Lists(listing, book) && (doc.agreement.state == Draft || doc.agreement.state == Pending)
    ensures var r := if doc.agreement.state == Draft then DecideSubmission(book, listing, w, auth, doc, e, d, consumer)
                     else DecideActivation(book, listing, w, auth, doc, delegation, e, d, consumer);
            r.Ok? && r.value.answer.Ok? && r.value.answer.value.state == Active ==>
              r.value.events != []
              && (x in r.value.events[1..] <==> GivesWay(book, doc.agreement, Stamp(auth.user, None, w.now), x))
  {
    var a := doc.agreement;
    GivingWayExactly(book, listing, a, Stamp(auth.user, None, w.now), x);
  }

  /* ---- who may do what, and when ---- */

  predicate ByConsumer(a: Agreement, auth: AuthData) {
    auth.isInternal || auth.organization == a.consumer
  }

  /** By the producer; or, while the e-service is delegated, by the delegate of the producer alone. */
  predicate ByProducer(a: Agreement, w: World, auth: AuthData) {
    if a.eservice in w.delegations
    then w.delegations[a.eservice].delegate == auth.organization && w.delegations[a.eservice].delegator == a.producer
    else auth.isInternal || auth.organization == a.producer
  }

  /** The read model has another agreement of the consumer for the e-service, in one of the states. */
  predicate Other(book: Book, consumer: TenantId, eservice: EServiceId, states: set<AgreementState>) {
    exists id :: id in book && book[id].agreement.consumer == consumer && book[id].agreement.eservice == eservice
                 && book[id].agreement.state in states
  }

  /** The newest descriptor that is or was published, and is in one of the states. */
  predicate Newest(e: EService, id: DescriptorId, states: set<DescriptorState>) {
    var latest := LatestDescriptor(e.descriptors);
    latest.Some? && latest.value.id == id && latest.value.state in states
  }

  lemma RelatedExactly(book: Book, listing: seq<AgreementId>, consumer: TenantId, eservice: EServiceId,
                       pick: AgreementState -> bool, states: set<AgreementState>)
    requires Lists(listing, book) && forall s :: pick(s) <==> s in states
    ensures Related(book, listing, consumer, eservice, pick) == [] <==> !Other(book, consumer, eservice, states)
  {
    var found := Related(book, listing, consumer, eservice, pick);
    if found != [] {
      assert found[0] in found;
    }
  }

  lemma CreationExactly(book: Book, listing: seq<AgreementId>, w: World, auth: AuthData, eservice: EServiceId,
                        descriptor: DescriptorId, newId: AgreementId)
    requires Lists(listing, book)
    ensures var r, org := Create(book, listing, w, auth, eservice, descriptor, newId), auth.organization;
            if eservice in w.eservices && Newest(w.eservices[eservice], descriptor, {Published}) && org in w.tenants
               && !Other(book, org, eservice, {Draft, Pending, MissingCertifiedAttributes, Active, Suspended})
               && (w.eservices[eservice].producer == w.tenants[org].id
                   || CertifiedMet(LatestDescriptor(w.eservices[eservice].descriptors).value.attributes,
                                   w.tenants[org].attributes))
            then
              var a := Agreement(newId, eservice, descriptor, w.eservices[eservice].producer, org, Draft, [], [], [],
                                 None, None, None, w.now, NO_STAMPS, None, None);
              r == Ok(Decision([NewEvent(AgreementAdded, a, None)], Ok(a)))
            else r.Err?
  {
    RelatedExactly(book, listing, auth.organization, eservice, Conflicting,
                   {Draft, Pending, MissingCertifiedAttributes, Active, Suspended});
    if eservice in w.eservices && auth.organization in w.tenants
       && LatestDescriptor(w.eservices[eservice].descriptors).Some? {
      var latest := LatestDescriptor(w.eservices[eservice].descriptors).value;
      SatisfactionExactly(latest.attributes, w.tenants[auth.organization].attributes, w.eservices[eservice].producer,
                          w.now);
    }
  }

  lemma SubmissionIsGuarded(book: Book, listing: seq<AgreementId>, w: World, auth: AuthData, id: AgreementId)
    requires Lists(listing, book)
    ensures var r := Submit(book, listing, w, auth, id);
            if id !in book then r.Err?
            else
              var a := book[id].agreement;
              if ByConsumer(a, auth) && a.state == Draft
                 && !Other(book, a.consumer, a.eservice, {Pending, MissingCertifiedAttributes})
                 && a.consumer in w.tenants && w.tenants[a.consumer].hasContactEmail && a.producer in w.tenants
                 && a.eservice in w.eservices
                 && Newest(w.eservices[a.eservice], a.descriptor, {Published, SuspendedDescriptor})
              then r == DecideSubmission(book, listing, w, auth, book[id], w.eservices[a.eservice],
                                         LatestDescriptor(w.eservices[a.eservice].descriptors).value,
                                         w.tenants[a.consumer])
              else r.Err?
  {
    if id in book {
      RelatedExactly(book, listing, book[id].agreement.consumer, book[id].agreement.eservice,
                     s => s == Pending || s == MissingCertifiedAttributes, {Pending, MissingCertifiedAttributes});
    }
  }

  lemma ActivationIsGuarded(book: Book, listing: seq<AgreementId>, w: World, auth: AuthData, id: AgreementId)
    requires Lists(listing, book)
    ensures var r := Activate(book, listing, w, auth, id);
            if id !in book then r.Err?
            else
              var a := book[id].agreement;
              if (ByConsumer(a, auth) || ByProducer(a, w, auth))
                 && (a.state == Suspended
                     || (a.state == Pending && (auth.organization != a.consumer || a.consumer == a.producer)))
                 && a.eservice in w.eservices && a.consumer in w.tenants && a.producer in w.tenants
                 && FindDescriptor(w.eservices[a.eservice].descriptors, a.descriptor).Some?
                 && FindDescriptor(w.eservices[a.eservice].descriptors, a.descriptor).value.state
                    in {Published, SuspendedDescriptor, Deprecated}
              then r == DecideActivation(book, listing, w, auth, book[id], Lookup(w.delegations, a.eservice),
                                         w.eservices[a.eservice],
                                         FindDescriptor(w.eservices[a.eservice].descriptors, a.descriptor).value,
                                         w.tenants[a.consumer])
              else r.Err?
  {
  }

  /** The organisation is the producer, or the delegate for the e-service. */
  predicate AsProducer(a: Agreement, w: World, org: TenantId) {
    org == a.producer || (a.eservice in w.delegations && w.delegations[a.eservice].delegate == org)
  }

  lemma SuspensionExactly(book: Book, w: World, auth: AuthData, id: AgreementId)
    ensures var r, org := Suspend(book, w, auth, id), auth.organization;
            if id !in book then r.Err?
            else
              var a := book[id].agreement;
              if (ByConsumer(a, auth) || ByProducer(a, w, auth)) && a.state in {Active, Suspended}
                 && (org == a.consumer || AsProducer(a, w, org)) && a.eservice in w.eservices && a.consumer in w.tenants
                 && FindDescriptor(w.eservices[a.eservice].descriptors, a.descriptor).Some?
              then
                var stamp := Stamp(auth.user, if a.eservice in w.delegations then Some(w.delegations[a.eservice].id)
                                              else None, w.now);
                var b := a.(state := Suspended,
                            suspendedByConsumer := if org == a.consumer then Some(true) else a.suspendedByConsumer,
                            suspendedByProducer := if AsProducer(a, w, org) then Some(true) else a.suspendedByProducer,
                            suspendedAt := if a.suspendedAt.Some? then a.suspendedAt else Some(w.now),
                            stamps := a.stamps.(
                              suspensionByConsumer :=
                                if org == a.consumer then Some(stamp) else a.stamps.suspensionByConsumer,
                              suspensionByProducer :=
                                if AsProducer(a, w, org) then Some(stamp) else a.stamps.suspensionByProducer));
                r == Ok(Decision([NewEvent(if AsProducer(a, w, org) then SuspendedByProducer else SuspendedByConsumer,
                                           b, Some(book[id].version))], Ok(b)))
              else r.Err?
  {
  }

  lemma {:induction false} FirstPublishedIsFirst(ds: seq<Descriptor>, i: nat)
    requires i < |ds| && ds[i].state == Published && forall k :: 0 <= k < i ==> ds[k].state != Published
    ensures FirstPublished(ds) == Some(ds[i])
  {
    if i > 0 {
      assert forall k :: 0 <= k < |ds| - 1 ==> ds[1..][k] == ds[k + 1];
      FirstPublishedIsFirst(ds[1..], i - 1);
    }
  }

  lemma {:induction false} NothingPublished(ds: seq<Descriptor>)
    requires forall d :: d in ds ==> d.state != Published
    ensures FirstPublished(ds) == None
  {
    if ds != [] {
      assert ds[0] in ds;
      NothingPublished(ds[1..]);
    }
  }

  lemma UpgradeRefused(book: Book, listing: seq<AgreementId>, w: World, auth: AuthData, id: AgreementId,
                       newId: AgreementId)
    requires Lists(listing, book)
    requires id in book && book[id].agreement.eservice in w.eservices ==>
               forall d :: d in w.eservices[book[id].agreement.eservice].descriptors ==> d.state != Published
    ensures Upgrade(book, listing, w, auth, id, newId).Err?
  {
    if id in book && book[id].agreement.eservice in w.eservices {
      NothingPublished(w.eservices[book[id].agreement.eservice].descriptors);
    }
  }

  /** An upgrade goes to the first descriptor that is published, if it is newer.  It moves the agreement at
      once if declared and verified attributes are satisfied, and makes a draft otherwise. */
  lemma UpgradeExactly(book: Book, listing: seq<AgreementId>, w: World, auth: AuthData, id: AgreementId,
                       newId: AgreementId, i: nat)
    requires Lists(listing, book) && id in book && book[id].agreement.eservice in w.eservices
    requires var ds := w.eservices[book[id].agreement.eservice].descriptors;
             i < |ds| && ds[i].state == Published && forall k :: 0 <= k < i ==> ds[k].state != Published
    ensures var r, a := Upgrade(book, listing, w, auth, id, newId), book[id].agreement;
            var e := w.eservices[a.eservice];
            var d, current := e.descriptors[i], FindDescriptor(e.descriptors, a.descriptor);
            if ByConsumer(a, auth) && a.state in {Active, Suspended}
               && a.consumer in w.tenants && a.producer in w.tenants
               && current.Some? && current.value.version < d.version
               && (e.producer == a.consumer || CertifiedMet(d.attributes, w.tenants[a.consumer].attributes)) then
              var consumer := w.tenants[a.consumer];
              if DeclaredMet(d.attributes, consumer.attributes)
                 && VerifiedMet(d.attributes, consumer.attributes, a.producer, w.now) then
                && r.Ok? && r.value.answer.Ok? && |r.value.events| == 2
                && var b, archived := r.value.answer.value, r.value.events[0].agreement;
                && archived.stamps.archiving.Some? && var stamp := archived.stamps.archiving.value;
                && stamp.who == auth.user && stamp.when == w.now
                && archived == a.(state := Archived, stamps := a.stamps.(archiving := Some(stamp)))
                && b == a.(id := newId, descriptor := d.id, createdAt := w.now, suspendedByPlatform := None,
                           certified := b.certified, declared := b.declared, verified := b.verified,
                           rejectionReason := None, stamps := a.stamps.(upgrade := Some(stamp)))
                && ListsHeld(b, e, d, consumer, w.now)
                && r.value.events == [NewEvent(AgreementArchivedByUpgrade, archived, Some(book[id].version)),
                                      NewEvent(AgreementUpgraded, b, None)]
              else if Other(book, a.consumer, a.eservice, {Draft}) then r.Err?
              else
                var b := a.(id := newId, descriptor := d.id, state := Draft, createdAt := w.now,
                            certified := [], declared := [], verified := [],
                            suspendedByPlatform := None, rejectionReason := None,
                            stamps := NO_STAMPS.(suspensionByConsumer := a.stamps.suspensionByConsumer,
                                                 suspensionByProducer := a.stamps.suspensionByProducer));
                r == Ok(Decision([NewEvent(AgreementAdded, b, None)], Ok(b)))
            else r.Err?
  {
    var a := book[id].agreement;
    var e := w.eservices[a.eservice];
    FirstPublishedIsFirst(e.descriptors, i);
    RelatedExactly(book, listing, a.consumer, a.eservice, s => s == Draft, {Draft});
    if a.consumer in w.tenants {
      SatisfactionExactly(e.descriptors[i].attributes, w.tenants[a.consumer].attributes, a.producer, w.now);
      MatchingListsHeld(a, e, e.descriptors[i], w.tenants[a.consumer], w.now);
    }
  }

  lemma ArchivalExactly(book: Book, w: World, auth: AuthData, id: AgreementId)
    ensures var r := ArchiveByConsumer(book, w, auth, id);
            if id in book && ByConsumer(book[id].agreement, auth) && book[id].agreement.state in {Active, Suspended}
            then
              var b := book[id].agreement.(state := Archived, stamps := book[id].agreement.stamps.(
                         archiving := Some(Stamp(auth.user, None, w.now))));
              r == Ok(Decision([NewEvent(AgreementArchivedByConsumer, b, Some(book[id].version))], Ok(b)))
            else r.Err?
  {
  }

  lemma DeletionExactly(book: Book, auth: AuthData, id: AgreementId)
    ensures var r := Delete(book, auth, id);
            if id in book && ByConsumer(book[id].agreement, auth)
               && book[id].agreement.state in {Draft, MissingCertifiedAttributes} then
              var a := book[id].agreement;
              r == Ok(Decision([NewEvent(AgreementDeleted, a, Some(book[id].version))], Ok(a)))
            else r.Err?
  {
  }

  lemma RejectionExactly(book: Book, w: World, auth: AuthData, id: AgreementId, reason: string)
    ensures var r := Reject(book, w, auth, id, reason);
            if id !in book then r.Err?
            else
              var a := book[id].agreement;
              if ByProducer(a, w, auth) && a.state == Pending && a.eservice in w.eservices && a.consumer in w.tenants
                 && FindDescriptor(w.eservices[a.eservice].descriptors, a.descriptor).Some? then
                var d := FindDescriptor(w.eservices[a.eservice].descriptors, a.descriptor).value;
                && r.Ok? && r.value.answer.Ok?
                && var b := r.value.answer.value;
                && b == a.(state := Rejected, rejectionReason := Some(reason),
                           certified := b.certified, declared := b.declared, verified := b.verified,
                           suspendedByConsumer := None, suspendedByProducer := None, suspendedByPlatform := None,
                           stamps := a.stamps.(rejection :=
                             Some(Stamp(auth.user, DelegationIdOf(Lookup(w.delegations, a.eservice)), w.now))))
                && ListsHeld(b, w.eservices[a.eservice], d, w.tenants[a.consumer], w.now)
                && r.value.events == [NewEvent(AgreementRejected, b, Some(book[id].version))]
              else r.Err?
  {
    if id in book && book[id].agreement.eservice in w.eservices && book[id].agreement.consumer in w.tenants {
      var a := book[id].agreement;
      var e := w.eservices[a.eservice];
      if FindDescriptor(e.descriptors, a.descriptor).Some? {
        MatchingListsHeld(a, e, FindDescriptor(e.descriptors, a.descriptor).value, w.tenants[a.consumer], w.now);
      }
    }
  }

  lemma CloningExactly(book: Book, listing: seq<AgreementId>, w: World, auth: AuthData, id: AgreementId,
                       newId: AgreementId)
    requires Lists(listing, book)
    ensures var r := Clone(book, listing, w, auth, id, newId);
            if id !in book then r.Err?
            else
              var a := book[id].agreement;
              if ByConsumer(a, auth) && a.state == Rejected && a.eservice in w.eservices && a.consumer in w.tenants
                 && !Other(book, auth.organization, a.eservice,
                           {Draft, Pending, MissingCertifiedAttributes, Active, Suspended})
                 && FindDescriptor(w.eservices[a.eservice].descriptors, a.descriptor).Some?
                 && CertifiedMet(FindDescriptor(w.eservices[a.eservice].descriptors, a.descriptor).value.attributes,
                                 w.tenants[a.consumer].attributes)
              then
                var b := a.(id := newId, certified := [], declared := [], verified := [], state := Draft,
                            createdAt := w.now, stamps := NO_STAMPS);
                r == Ok(Decision([NewEvent(AgreementAdded, b, None)], Ok(b)))
              else r.Err?
  {
    if id in book {
      var a := book[id].agreement;
      RelatedExactly(book, listing, auth.organization, a.eservice, Conflicting,
                     {Draft, Pending, MissingCertifiedAttributes, Active, Suspended});
      if a.eservice in w.eservices && a.consumer in w.tenants {
        var found := FindDescriptor(w.eservices[a.eservice].descriptors, a.descriptor);
        if found.Some? {
          SatisfactionExactly(found.value.attributes, w.tenants[a.consumer].attributes, a.producer, w.now);
        }
      }
    }
  }
}
