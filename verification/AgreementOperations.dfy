/** What single operations of the agreement service, and pairs of them, amount to. */
module AgreementOperations {
  import opened Wrappers
  import opened Domain
  import opened AttributeSatisfaction
  import opened AgreementFsm
  import opened AgreementEventStore
  import opened AgreementProcess
  import opened AgreementLifecycle

  /* ---- suspension and its undoing ---- */

  /** The consumer meets the descriptor's requirements, or is the producer itself. */
  predicate Entitled(a: Agreement, d: Descriptor, consumer: Tenant, now: int) {
    a.consumer == a.producer
    || (CertifiedSatisfied(d.attributes, consumer.attributes) && DeclaredSatisfied(d.attributes, consumer.attributes)
        && VerifiedSatisfied(a.producer, now, d.attributes, consumer.attributes))
  }

  predicate ActsAsProducer(a: Agreement, org: TenantId, delegate: Option<TenantId>) {
    org == a.producer || Some(org) == delegate
  }

  /** The party that is not the requester has suspended the agreement. */
  predicate SuspendedByOther(a: Agreement, org: TenantId, delegate: Option<TenantId>) {
    (org != a.consumer && a.suspendedByConsumer == Some(true))
      || (!ActsAsProducer(a, org, delegate) && a.suspendedByProducer == Some(true))
  }

  /** The agreement as it comes back from a suspension by `org` at `since`: the requester's own flag and
      stamp are cleared, those of the other party are as they were, and it is active again unless the
      other party or the platform keeps it suspended. */
  predicate ComesBack(b: Agreement, a: Agreement, org: TenantId, delegate: Option<TenantId>, entitled: bool, since: int)
  {
    var active, isProducer := entitled && !SuspendedByOther(a, org, delegate), ActsAsProducer(a, org, delegate);
    b == a.(state := if active then Active else Suspended,
            suspendedByConsumer := if org == a.consumer then Some(false) else a.suspendedByConsumer,
            suspendedByProducer := if isProducer then Some(false) else a.suspendedByProducer,
            suspendedByPlatform := Some(!entitled),
            suspendedAt := if active then None else if a.suspendedAt.Some? then a.suspendedAt else Some(since),
            stamps := a.stamps.(suspensionByConsumer := if org == a.consumer then None
                                else a.stamps.suspensionByConsumer,
                                suspensionByProducer := if isProducer then None else a.stamps.suspensionByProducer))
  }

  /** What a suspension leaves for the activation that follows it. */
  lemma SuspensionShown(book: Book, w: World, auth: AuthData, id: AgreementId, decision: Decision)
    requires Keyed(book) && Suspend(book, w, auth, id) == Ok(decision)
    ensures var a := book[id].agreement; var later := ChangedAll(book, decision.events);
            var delegate := DelegateOf(DelegationOf(w, a.eservice));
            && decision.answer.Ok? && later == book[id := Document(decision.answer.value, book[id].version + 1)]
            && var s := decision.answer.value;
            && s.state == Suspended && s.suspendedAt.Some? && IsLive(a.state)
            && (auth.organization == a.consumer || ActsAsProducer(a, auth.organization, delegate))
            && (forall b, entitled :: ComesBack(b, s, auth.organization, delegate, entitled, w.now)
                                      <==> ComesBack(b, a, auth.organization, delegate, entitled, w.now))
  {
    assert decision.events[..|decision.events| - 1] == [];
  }

  /** An activation of a suspended agreement by a party to it brings the agreement back. */
  lemma ActivationBringsBack(book: Book, listing: seq<AgreementId>, w: World, auth: AuthData, doc: Document,
                             delegation: Option<Delegation>,
                             e: EService, d: Descriptor, consumer: Tenant, since: int)
    requires forall x :: x in listing ==> x in book
    requires doc.agreement.state == Suspended && doc.agreement.suspendedAt.Some?
    requires auth.organization == doc.agreement.consumer
             || ActsAsProducer(doc.agreement, auth.organization, DelegateOf(delegation))
    ensures var r := DecideActivation(book, listing, w, auth, doc, delegation, e, d, consumer);
            && r.Ok? && r.value.answer.Ok?
            && ComesBack(r.value.answer.value, doc.agreement, auth.organization, DelegateOf(delegation),
                         Entitled(doc.agreement, d, consumer, w.now), since)
  {
  }

  /** The consumer is entitled by what the service reads of e-service and tenant. */
  predicate EntitledIn(w: World, a: Agreement) {
    a.eservice in w.eservices && a.consumer in w.tenants
    && var d := FindDescriptor(w.eservices[a.eservice].descriptors, a.descriptor);
       d.Some? && Entitled(a, d.value, w.tenants[a.consumer], w.now)
  }

  /** The suspension's one event is stored. */
  lemma SuspensionIsStored(rows: seq<Row>, r: Request, decision: Decision)
    requires Numbered(rows) && Keyed(ReadModel(rows)) && Lists(r.listing, ReadModel(rows))
    requires r.command.SuspendAgreement? && Decide(ReadModel(rows), r) == Ok(decision)
    ensures InsertAll(rows, decision.events).Some?
  {
    var e := decision.events[0];
    ReadModelIsLatest(rows, r.command.id);
    InsertIsExact(rows, e);
    InsertOne(rows, e);
    assert decision.events == [e];
  }

  lemma ActivationFound(book: Book, listing: seq<AgreementId>, w: World, auth: AuthData, id: AgreementId)
    requires Lists(listing, book) && id in book && book[id].agreement.state == Suspended
    ensures Activate(book, listing, w, auth, id).Ok? ==>
            var a := book[id].agreement;
            && a.eservice in w.eservices && a.consumer in w.tenants
            && FindDescriptor(w.eservices[a.eservice].descriptors, a.descriptor).Some?
            && DecideActivation(book, listing, w, auth, book[id], DelegationOf(w, a.eservice), w.eservices[a.eservice],
                                FindDescriptor(w.eservices[a.eservice].descriptors, a.descriptor).value,
                                w.tenants[a.consumer])
               == Activate(book, listing, w, auth, id)
  {
  }

  lemma SuspensionRead(rows: seq<Row>, s: Request, decision: Decision, before: Book)
    requires Numbered(rows) && before == ReadModel(rows) && Keyed(before) && Lists(s.listing, before)
    requires s.command.SuspendAgreement? && Decide(before, s) == Ok(decision)
    ensures ReadModel(Execute(rows, s)) == ChangedAll(before, decision.events)
  {
    SuspensionIsStored(rows, s, decision);
    StoredDecision(rows, s, decision);
  }

  lemma SuspendedDocument(s: Request, decision: Decision, before: Book, later: Book)
    requires Keyed(before) && Lists(s.listing, before)
    requires s.command.SuspendAgreement? && Decide(before, s) == Ok(decision)
    requires later == ChangedAll(before, decision.events)
    ensures s.command.id in before && decision.answer.Ok?
            && later == before[s.command.id := Document(decision.answer.value, before[s.command.id].version + 1)]
  {
    SuspensionShown(before, s.world, s.auth, s.command.id, decision);
  }

  /** The document that the suspension leaves in the read model. */
  lemma SuspensionExecuted(rows: seq<Row>, s: Request, decision: Decision)
    requires Numbered(rows) && Keyed(ReadModel(rows)) && SingleLive(ReadModel(rows))
             && Lists(s.listing, ReadModel(rows))
    requires s.command.SuspendAgreement? && Decide(ReadModel(rows), s) == Ok(decision)
    ensures s.command.id in ReadModel(rows) && decision.answer.Ok?
    ensures Numbered(Execute(rows, s)) && Keyed(ReadModel(Execute(rows, s))) && SingleLive(ReadModel(Execute(rows, s)))
    ensures ReadModel(Execute(rows, s))
            == ReadModel(rows)[s.command.id := Document(decision.answer.value,
                                                        ReadModel(rows)[s.command.id].version + 1)]
  {
    var before, later := ReadModel(rows), ReadModel(Execute(rows, s));
    ExecuteKeeps(rows, s);
    SuspensionRead(rows, s, decision, before);
    SuspendedDocument(s, decision, before, later);
  }

  /** The activation of a suspended agreement, executed. */
  lemma ActivationExecuted(rows: seq<Row>, r: Request, since: int)
    requires Numbered(rows) && Keyed(ReadModel(rows)) && SingleLive(ReadModel(rows))
             && Lists(r.listing, ReadModel(rows)) && NoRepeats(r.listing)
    requires r.command.ActivateAgreement? && r.command.id in ReadModel(rows) && Decide(ReadModel(rows), r).Ok?
    requires var a := ReadModel(rows)[r.command.id].agreement;
             && a.state == Suspended && a.suspendedAt.Some?
             && (r.auth.organization == a.consumer
                 || ActsAsProducer(a, r.auth.organization, DelegateOf(DelegationOf(r.world, a.eservice))))
    ensures var a, after := ReadModel(rows)[r.command.id].agreement, ReadModel(Execute(rows, r));
            && r.command.id in after
            && ComesBack(after[r.command.id].agreement, a, r.auth.organization,
                         DelegateOf(DelegationOf(r.world, a.eservice)), EntitledIn(r.world, a), since)
  {
    var doc := ReadModel(rows)[r.command.id];
    ActivationFound(ReadModel(rows), r.listing, r.world, r.auth, r.command.id);
    var e := r.world.eservices[doc.agreement.eservice];
    ActivationBringsBack(ReadModel(rows), r.listing, r.world, r.auth, doc,
                         DelegationOf(r.world, doc.agreement.eservice), e,
                         FindDescriptor(e.descriptors, doc.agreement.descriptor).value,
                         r.world.tenants[doc.agreement.consumer], since);
    ActivationIsRebuilt(rows, r);
  }

  /** An activation by the party that suspended the agreement undoes the suspension, in the read model
      folded from the stored events: exactly as `ComesBack` says, by what entitles the consumer then. */
  lemma SuspensionIsUndone(rows: seq<Row>, s: Request, r: Request)
    requires Numbered(rows) && Keyed(ReadModel(rows)) && SingleLive(ReadModel(rows))
             && Lists(s.listing, ReadModel(rows))
    requires s.command.SuspendAgreement? && r.command == ActivateAgreement(s.command.id)
    requires r.auth == s.auth && r.world.delegations == s.world.delegations && NoRepeats(r.listing)
    ensures Decide(ReadModel(rows), s).Ok? && Lists(r.listing, ReadModel(Execute(rows, s)))
            && Decide(ReadModel(Execute(rows, s)), r).Ok? ==>
              var after := ReadModel(Execute(Execute(rows, s), r));
              && s.command.id in ReadModel(rows) && s.command.id in after
              && var a := ReadModel(rows)[s.command.id].agreement;
                 ComesBack(after[s.command.id].agreement, a, s.auth.organization,
                           DelegateOf(DelegationOf(s.world, a.eservice)),
                           EntitledIn(r.world, a), s.world.now)
  {
    if Decide(ReadModel(rows), s).Ok? && Lists(r.listing, ReadModel(Execute(rows, s)))
      && Decide(ReadModel(Execute(rows, s)), r).Ok? {
      var first := Decide(ReadModel(rows), s).value;
      SuspensionExecuted(rows, s, first);
      SuspensionShown(ReadModel(rows), s.world, s.auth, s.command.id, first);
      ActivationExecuted(Execute(rows, s), r, s.world.now);
    }
  }

  /* ---- first activations ---- */

  /** A successful activation is announced as such, and gives the agreement its activation stamp, if and
      only if the agreement was pending and the other party has not suspended it.  A draft made of a
      suspended agreement keeps the suspension while it is pending; it becomes suspended, is announced as
      unsuspended by the requester, and as it is not pending again it never gets the stamp. */
  lemma FirstActivationIsAnnounced(book: Book, listing: seq<AgreementId>, w: World, auth: AuthData, doc: Document,
                                   delegation: Option<Delegation>, e: EService, d: Descriptor, consumer: Tenant,
                                   decision: Decision)
    requires forall x :: x in listing ==> x in book
    requires doc.agreement.state == Pending || doc.agreement.state == Suspended
    requires DecideActivation(book, listing, w, auth, doc, delegation, e, d, consumer) == Ok(decision)
             && decision.answer.Ok?
    ensures var a, b, delegate := doc.agreement, decision.answer.value, DelegateOf(delegation);
            var first := a.state == Pending && !SuspendedByOther(a, auth.organization, delegate);
            && decision.events != []
            && (decision.events[0].name == AgreementActivated <==> first)
            && (first ==>
                  b.state == Active
                  && b.stamps.activation == Some(Stamp(auth.user, DelegationIdOf(delegation), w.now)))
            && (!first ==>
                  && b.stamps.activation == a.stamps.activation
                  && (a.state == Pending ==> b.state == Suspended)
                  && (decision.events[0].name == UnsuspendedByProducer
                      || decision.events[0].name == UnsuspendedByConsumer))
  {
  }

  /** Submission leaves the parties' flags on the agreement. */
  lemma SubmissionKeepsParties(book: Book, listing: seq<AgreementId>, w: World, auth: AuthData, doc: Document,
                               e: EService, d: Descriptor, consumer: Tenant, decision: Decision)
    requires forall x :: x in listing ==> x in book
    requires DecideSubmission(book, listing, w, auth, doc, e, d, consumer) == Ok(decision) && decision.answer.Ok?
    ensures SameParties(decision.answer.value, doc.agreement)
    ensures decision.answer.value.producer == doc.agreement.producer
    ensures decision.answer.value.suspendedByConsumer == doc.agreement.suspendedByConsumer
    ensures decision.answer.value.suspendedByProducer == doc.agreement.suspendedByProducer
    ensures decision.answer.value.state == Pending ==>
              decision.answer.value.stamps.activation == doc.agreement.stamps.activation
  {
  }

  /** One party submits the draft of an agreement that it had suspended, and the other activates it: the
      agreement is live, announced as unsuspended, and has no activation stamp that the draft had not. */
  lemma SuspendedDraftIsNotAnnounced(book: Book, listing: seq<AgreementId>, w: World, auth: AuthData, doc: Document,
                                     e: EService, d: Descriptor, consumer: Tenant, submitted: Decision,
                                     later: Book, related: seq<AgreementId>, w1: World, auth1: AuthData, version: nat,
                                     delegation: Option<Delegation>, e1: EService, d1: Descriptor, consumer1: Tenant,
                                     activated: Decision)
    requires (forall x :: x in listing ==> x in book) && (forall x :: x in related ==> x in later)
    requires SuspendedByOther(doc.agreement, auth1.organization, DelegateOf(delegation))
    ensures DecideSubmission(book, listing, w, auth, doc, e, d, consumer) == Ok(submitted)
            && submitted.answer.Ok? && submitted.answer.value.state == Pending
            && DecideActivation(later, related, w1, auth1, Document(submitted.answer.value, version), delegation,
                                e1, d1, consumer1) == Ok(activated)
            && activated.answer.Ok? ==>
              && activated.answer.value.state == Suspended
              && activated.answer.value.stamps.activation == doc.agreement.stamps.activation
              && activated.events != []
              && activated.events[0].name in {UnsuspendedByProducer, UnsuspendedByConsumer}
  {
    if DecideSubmission(book, listing, w, auth, doc, e, d, consumer) == Ok(submitted) && submitted.answer.Ok?
       && submitted.answer.value.state == Pending
    {
      var doc1 := Document(submitted.answer.value, version);
      SubmissionKeepsParties(book, listing, w, auth, doc, e, d, consumer, submitted);
      if DecideActivation(later, related, w1, auth1, doc1, delegation, e1, d1, consumer1) == Ok(activated)
         && activated.answer.Ok?
      {
        FirstActivationIsAnnounced(later, related, w1, auth1, doc1, delegation, e1, d1, consumer1, activated);
      }
    }
  }

  /* ---- what an agreement shows of its descriptor ---- */

  lemma {:induction false} FlattenedExactly(groups: seq<seq<AttributeId>>, id: AttributeId)
    ensures id in Flattened(groups) <==> InGroups(id, groups)
  {
    if groups != [] {
      FlattenedExactly(groups[1..], id);
      assert forall g :: g in groups <==> g == groups[0] || g in groups[1..];
    }
  }

  lemma {:induction false} MatchingMembers(group: seq<AttributeId>, held: seq<AttributeId>, id: AttributeId)
    ensures id in Matching(group, held) <==> id in group && id in held
  {
    if group != [] {
      MatchingMembers(group[1..], held, id);
      assert forall a :: a in group <==> a == group[0] || a in group[1..];
    }
  }

  predicate Has(attributes: seq<TenantAttribute>, keep: TenantAttribute -> bool, id: AttributeId) {
    exists t :: t in attributes && keep(t) && t.id == id
  }

  /** An agreement that becomes active lists exactly the attributes of its descriptor that the consumer
      has: certified and not revoked, declared and not revoked, verified for the e-service's producer. */
  lemma MatchingAttributesExactly(a: Agreement, e: EService, d: Descriptor, consumer: Tenant, now: int, id: AttributeId)
    ensures var b := WithMatching(a, e, d, consumer, now);
            && (id in b.certified <==>
                InGroups(id, d.attributes.certified) && Has(consumer.attributes, CountsAsCertified, id))
            && (id in b.declared <==>
                InGroups(id, d.attributes.declared) && Has(consumer.attributes, CountsAsDeclared, id))
            && (id in b.verified <==>
                InGroups(id, d.attributes.verified)
                  && Has(consumer.attributes, (t: TenantAttribute) => CountsAsVerified(e.producer, now, t), id))
  {
    var verified := (t: TenantAttribute) => CountsAsVerified(e.producer, now, t);
    FlattenedExactly(d.attributes.certified, id);
    FlattenedExactly(d.attributes.declared, id);
    FlattenedExactly(d.attributes.verified, id);
    MatchingMembers(Flattened(d.attributes.certified), Certified(consumer.attributes), id);
    MatchingMembers(Flattened(d.attributes.declared), Declared(consumer.attributes), id);
    MatchingMembers(Flattened(d.attributes.verified), Verified(e.producer, now, consumer.attributes), id);
    KeptExactly(consumer.attributes, CountsAsCertified, id);
    KeptExactly(consumer.attributes, CountsAsDeclared, id);
    KeptExactly(consumer.attributes, verified, id);
  }

  /** The descriptor that creation and submission accept is the greatest version that is or was published,
      the first of them if versions tie. */
  lemma {:induction false} LatestDescriptorExactly(ds: seq<Descriptor>)
    ensures LatestDescriptor(ds).None? <==>
              forall d :: d in ds ==> d.state !in {Published, SuspendedDescriptor, Deprecated, ArchivedDescriptor}
    ensures LatestDescriptor(ds).Some? ==>
              exists i: nat :: i < |ds| && LatestDescriptor(ds) == Some(ds[i]) && IsLatestAt(ds, i)
  {
    if ds != [] {
      var rest := ds[1..];
      LatestDescriptorExactly(rest);
      assert forall d :: d in ds <==> d == ds[0] || d in rest;
      assert forall k :: 0 <= k < |rest| ==> rest[k] == ds[k + 1];
      if LatestDescriptor(rest).Some? {
        var i: nat :| i < |rest| && LatestDescriptor(rest) == Some(rest[i]) && IsLatestAt(rest, i);
        if WasPublished(ds[0].state) && ds[0].version >= rest[i].version {
          assert IsLatestAt(ds, 0);
        } else {
          assert ds[i + 1] == rest[i] && IsLatestAt(ds, i + 1);
        }
      } else if LatestDescriptor(ds).Some? {
        assert IsLatestAt(ds, 0);
      }
    }
  }

  predicate IsLatestAt(ds: seq<Descriptor>, i: nat)
    requires i < |ds|
  {
    && ds[i].state in {Published, SuspendedDescriptor, Deprecated, ArchivedDescriptor}
    && forall k :: 0 <= k < |ds| && ds[k].state in {Published, SuspendedDescriptor, Deprecated, ArchivedDescriptor} ==>
         if k < i then ds[k].version < ds[i].version else ds[k].version <= ds[i].version
  }

  lemma {:induction false} FirstPublishedExactly(ds: seq<Descriptor>)
    ensures FirstPublished(ds).Some? ==> FirstPublished(ds).value in ds && FirstPublished(ds).value.state == Published
    ensures FirstPublished(ds).None? ==> forall d :: d in ds ==> d.state != Published
  {
    if ds != [] {
      FirstPublishedExactly(ds[1..]);
    }
  }

  /** The descriptor an upgrade goes to: published, and newer than the agreement's. */
  predicate IsTarget(e: EService, a: Agreement, d: Descriptor) {
    && d in e.descriptors && d.state == Published
    && var current := FindDescriptor(e.descriptors, a.descriptor); current.Some? && d.version > current.value.version
  }

  /** The guards of an upgrade passed; its events. */
  lemma UpgradeGoesAhead(book: Book, listing: seq<AgreementId>, w: World, auth: AuthData, id: AgreementId,
                         newId: AgreementId, decision: Decision)
    returns (d: Descriptor, stamp: Stamp)
    requires Lists(listing, book) && Upgrade(book, listing, w, auth, id, newId) == Ok(decision)
    ensures id in book && book[id].agreement.eservice in w.eservices && book[id].agreement.consumer in w.tenants
    ensures var a := book[id].agreement; var e, consumer := w.eservices[a.eservice], w.tenants[a.consumer];
            && IsTarget(e, a, d)
            && decision.events ==
                 if CanBeUpgraded(a, d, consumer, w.now)
                 then [NewEvent(AgreementArchivedByUpgrade, Archive(a, stamp), Some(book[id].version)),
                       NewEvent(AgreementUpgraded, UpgradedAgreement(a, e, d, consumer, newId, stamp, w.now), None)]
                 else [NewEvent(AgreementAdded, NewDraft(a, d, newId, w.now), None)]
  {
    var a := book[id].agreement;
    var e := w.eservices[a.eservice];
    d := FirstPublished(e.descriptors).value;
    FirstPublishedExactly(e.descriptors);
    var delegation := DelegationOf(w, e.id);
    stamp := Stamp(auth.user,
                   if Some(auth.organization) == DelegateOf(delegation) then DelegationIdOf(delegation)
                     else None, w.now);
  }

  lemma TwoEvents(book: Book, first: NewEvent, second: NewEvent)
    ensures ChangedAll(book, [first, second]) == Changed(Changed(book, first), second)
  {
    assert [first, second][..1] == [first];
    OneEvent(book, first);
  }

  /** An upgrade either moves the agreement at once, when the consumer's declared and verified attributes
      allow it, or leaves it alone and adds a draft.  A move archives the old agreement and has a new one
      go on in the same state, with the same parties, suspensions and activation. */
  lemma UpgradeMovesOrDrafts(book: Book, listing: seq<AgreementId>, w: World, auth: AuthData, id: AgreementId,
                             newId: AgreementId, decision: Decision)
    returns (d: Descriptor)
    requires Keyed(book) && Lists(listing, book) && Upgrade(book, listing, w, auth, id, newId) == Ok(decision)
             && newId !in book
    ensures var a, after := book[id].agreement, ChangedAll(book, decision.events);
            && a.eservice in w.eservices && a.consumer in w.tenants && IsTarget(w.eservices[a.eservice], a, d)
            && after.Keys == book.Keys + {newId} && (forall x :: x in book && x != id ==> after[x] == book[x])
            && var b, moved := after[newId].agreement, CanBeUpgraded(a, d, w.tenants[a.consumer], w.now);
            && b.descriptor == d.id && SameParties(b, a) && b.suspendedByConsumer == a.suspendedByConsumer
            && b.suspendedByProducer == a.suspendedByProducer
            && b.suspendedByPlatform.None?
            && (if moved then after[id].agreement.state == Archived && b.state == a.state
                && b.stamps.activation == a.stamps.activation
                else after[id] == book[id] && b.state == Draft && b.stamps.activation.None?)
  {
    var stamp;
    d, stamp := UpgradeGoesAhead(book, listing, w, auth, id, newId, decision);
    var a := book[id].agreement;
    if CanBeUpgraded(a, d, w.tenants[a.consumer], w.now) {
      TwoEvents(book, decision.events[0], decision.events[1]);
    } else {
      OneEvent(book, decision.events[0]);
    }
  }
}
