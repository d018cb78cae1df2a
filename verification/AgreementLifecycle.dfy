/** Runs of the agreement service: what every sequence of operations keeps. */
module AgreementLifecycle {
  import opened Wrappers
  import opened Domain
  import opened AttributeSatisfaction
  import opened AgreementFsm
  import opened AgreementEventStore
  import opened AgreementProcess

  datatype Command =
    | CreateAgreement(eservice: EServiceId, descriptor: DescriptorId, newId: AgreementId)
    | SubmitAgreement(id: AgreementId)
    | ActivateAgreement(id: AgreementId)
    | SuspendAgreement(id: AgreementId)
    | UpgradeAgreement(id: AgreementId, newId: AgreementId)
    | ArchiveAgreement(id: AgreementId)
    | RejectAgreement(id: AgreementId, reason: string)
    | CloneAgreement(id: AgreementId, newId: AgreementId)
    | DeleteAgreement(id: AgreementId)
    | RecomputeAgreements(attribute: AttributeId, consumer: Tenant)

  /** A command with everything its handling reads; `listing` is the order in which the read model
      lists its agreements, the world may be different for every request. */
  datatype Request = Request(command: Command, auth: AuthData, world: World, listing: seq<AgreementId>)

  predicate Lists(listing: seq<AgreementId>, book: Book) {
    (forall id :: id in listing ==> id in book) && forall id :: id in book ==> id in listing
  }

  function Decide(book: Book, r: Request): Decided
    requires Lists(r.listing, book) && !r.command.RecomputeAgreements?
  {
    match r.command
    case CreateAgreement(e, d, newId) => Create(book, r.listing, r.world, r.auth, e, d, newId)
    case SubmitAgreement(id) => Submit(book, r.listing, r.world, r.auth, id)
    case ActivateAgreement(id) => Activate(book, r.listing, r.world, r.auth, id)
    case SuspendAgreement(id) => Suspend(book, r.world, r.auth, id)
    case UpgradeAgreement(id, newId) => Upgrade(book, r.listing, r.world, r.auth, id, newId)
    case ArchiveAgreement(id) => ArchiveByConsumer(book, r.world, r.auth, id)
    case RejectAgreement(id, reason) => Reject(book, r.world, r.auth, id, reason)
    case CloneAgreement(id, newId) => Clone(book, r.listing, r.world, r.auth, id, newId)
    case DeleteAgreement(id) => Delete(book, r.auth, id)
  }

  /** Events stored one transaction each, up to the first that fails. */
  function InsertEach(rows: seq<Row>, events: seq<NewEvent>): seq<Row>
    decreases |events|
  {
    if events == [] then rows
    else
      match Insert(rows, events[0])
      case None => rows
      case Some(more) => InsertEach(more, events[1..])
  }

  /** The event table after a request; the read model is up to date when the request is handled. */
  function Execute(rows: seq<Row>, r: Request): seq<Row>
    requires Lists(r.listing, ReadModel(rows))
  {
    if r.command.RecomputeAgreements? then
      match Recompute(ReadModel(rows), r.listing, r.world, r.command.attribute, r.command.consumer)
      case Err(_) => rows
      case Ok(events) => InsertEach(rows, events)
    else
      match Decide(ReadModel(rows), r)
      case Err(_) => rows
      case Ok(decision) =>
        (match InsertAll(rows, decision.events)
         case None => rows
         case Some(more) => more)
  }

  ghost predicate IsRun(rows: seq<Row>, rs: seq<Request>)
    decreases |rs|
  {
    rs == [] || (Lists(rs[0].listing, ReadModel(rows)) && IsRun(Execute(rows, rs[0]), rs[1..]))
  }

  function ExecuteAll(rows: seq<Row>, rs: seq<Request>): seq<Row>
    requires IsRun(rows, rs)
    decreases |rs|
  {
    if rs == [] then rows else ExecuteAll(Execute(rows, rs[0]), rs[1..])
  }

  /* ---- the read model under lists of events ---- */

  predicate Keyed(book: Book) {
    forall id :: id in book ==> book[id].agreement.id == id
  }

  lemma {:induction false} ChangedTogether(book: Book, first: seq<NewEvent>, second: seq<NewEvent>)
    ensures ChangedAll(book, first + second) == ChangedAll(ChangedAll(book, first), second)
  {
    var all := first + second;
    if second == [] {
      assert all == first;
    } else {
      assert all[..|all| - 1] == first + second[..|second| - 1];
      ChangedTogether(book, first, second[..|second| - 1]);
    }
  }

  /** Archiving reaches the listed agreements and no other. */
  lemma {:induction false} ArchivedBook(book: Book, now: Book, ids: seq<AgreementId>, stamp: Stamp, id: AgreementId)
    requires Keyed(book) && forall x :: x in ids ==> x in book
    ensures var after := ChangedAll(now, ArchiveEvents(book, ids, stamp));
            && (id in ids ==> id in after && after[id].agreement == Archive(book[id].agreement, stamp))
            && (id !in ids ==> (id in after <==> id in now) && (id in now ==> after[id] == now[id]))
  {
    if ids != [] {
      var events := ArchiveEvents(book, ids, stamp);
      ArchivedBook(book, now, ids[..|ids| - 1], stamp, id);
      assert events[..|events| - 1] == ArchiveEvents(book, ids[..|ids| - 1], stamp);
      assert forall x :: x in ids <==> x in ids[..|ids| - 1] || x == ids[|ids| - 1];
    }
  }

  /* ---- the events of an activation rebuild its result ---- */

  /** However the activation is split into events, the read model ends with the agreement that the
      service returns, at the version of the last event. */
  lemma EventsRebuildResult(book: Book, first: bool, b: Agreement, before: Option<bool>, version: nat, auth: AuthData,
                            delegate: Option<TenantId>)
    requires ActivationEvents(first, b, before, version, auth, delegate).Ok?
    requires first ==> b.state == Active
    ensures var events := ActivationEvents(first, b, before, version, auth, delegate).value;
            && 1 <= |events| <= 2
            && (forall k :: 0 <= k < |events| ==>
                events[k].agreement.id == b.id && events[k].version == Some(version + k))
            && ChangedAll(book, events) == book[b.id := Document(b, version + |events|)]
  {
    var events := ActivationEvents(first, b, before, version, auth, delegate).value;
    if |events| == 2 {
      assert events[..1] == [events[0]] && events[..1][..0] == [];
      assert ChangedAll(book, events[..1]) == Changed(book, events[0]);
    } else {
      assert events[..0] == [] && events == [events[0]];
      assert events[0].agreement == b;
    }
  }

  /* ---- a single live agreement per consumer and e-service ---- */

  predicate SameParties(a: Agreement, b: Agreement) {
    a.consumer == b.consumer && a.eservice == b.eservice
  }

  predicate SingleLive(book: Book) {
    forall x, y ::
      x in book && y in book && IsLive(book[x].agreement.state) && IsLive(book[y].agreement.state)
      && SameParties(book[x].agreement, book[y].agreement)
      ==> x == y
  }

  /** Documents have only been replaced by later ones of theirs, none of them newly live. */
  predicate Descends(now: Book, book: Book) {
    forall id :: id in now ==>
      id in book && now[id].agreement.id == id && SameParties(now[id].agreement, book[id].agreement)
      && (IsLive(now[id].agreement.state) ==> IsLive(book[id].agreement.state))
  }

  lemma DescentKeepsSingleLive(book: Book, now: Book)
    requires SingleLive(book) && Descends(now, book)
    ensures SingleLive(now)
  {
  }

  /** An event that only takes its agreement further. */
  predicate Continues(e: NewEvent, book: Book) {
    var id := e.agreement.id;
    id in book && SameParties(e.agreement, book[id].agreement)
      && (IsLive(e.agreement.state) ==> IsLive(book[id].agreement.state))
  }

  lemma ContinuationDescends(book: Book, now: Book, e: NewEvent)
    requires Descends(now, book) && Continues(e, book)
    ensures Descends(Changed(now, e), book)
  {
  }

  lemma OneEvent(book: Book, e: NewEvent)
    ensures ChangedAll(book, [e]) == Changed(book, e)
  {
    assert [e][..0] == [];
  }

  /** `b` is in the place of its agreement, and of the others only those of other parties are live. */
  predicate Replaced(after: Book, book: Book, b: Agreement) {
    && b.id in after && after[b.id].agreement == b
    && forall id :: id in after && id != b.id ==>
         && id in book && after[id].agreement.id == id && SameParties(after[id].agreement, book[id].agreement)
         && (after[id].agreement == book[id].agreement || after[id].agreement.state == Archived)
         && (IsLive(after[id].agreement.state) ==> !SameParties(book[id].agreement, b))
  }

  lemma ReplacementKeepsSingleLive(after: Book, book: Book, b: Agreement)
    requires SingleLive(book) && Replaced(after, book, b)
    ensures Keyed(after) && SingleLive(after)
  {
  }

  /** Archiving every other live agreement of the parties. */
  lemma ArchivingReplaces(book: Book, listing: seq<AgreementId>, b: Agreement, version: nat, stamp: Stamp)
    requires Keyed(book) && Lists(listing, book)
    ensures var others := Without(Related(book, listing, b.consumer, b.eservice, IsLive), b.id);
            Replaced(ChangedAll(book[b.id := Document(b, version)], ArchiveEvents(book, others, stamp)), book, b)
  {
    var others := Without(Related(book, listing, b.consumer, b.eservice, IsLive), b.id);
    var now := book[b.id := Document(b, version)];
    var after := ChangedAll(now, ArchiveEvents(book, others, stamp));
    ArchivedBook(book, now, others, stamp, b.id);
    forall id | id in after && id != b.id
      ensures id in book && after[id].agreement.id == id && SameParties(after[id].agreement, book[id].agreement)
      ensures after[id].agreement == book[id].agreement || after[id].agreement.state == Archived
      ensures IsLive(after[id].agreement.state) ==> !SameParties(book[id].agreement, b)
    {
      ArchivedBook(book, now, others, stamp, id);
    }
  }

  lemma MainThenArchiving(book: Book, listing: seq<AgreementId>, main: seq<NewEvent>, b: Agreement, version: nat,
                          stamp: Stamp)
    requires Keyed(book) && Lists(listing, book) && ChangedAll(book, main) == book[b.id := Document(b, version)]
    ensures var others := Without(Related(book, listing, b.consumer, b.eservice, IsLive), b.id);
            Replaced(ChangedAll(book, main + ArchiveEvents(book, others, stamp)), book, b)
  {
    var others := Without(Related(book, listing, b.consumer, b.eservice, IsLive), b.id);
    ChangedTogether(book, main, ArchiveEvents(book, others, stamp));
    ArchivingReplaces(book, listing, b, version, stamp);
  }

  /** An operation that takes one agreement further. */
  predicate TakesFurther(book: Book, events: seq<NewEvent>) {
    |events| == 1 && Continues(events[0], book)
  }

  /** An operation that makes or leaves `b` live, in its `main` events, and archives the other live
      agreements of its parties. */
  predicate MakesLive(book: Book, listing: seq<AgreementId>, b: Agreement, main: seq<NewEvent>, stamp: Stamp,
                      events: seq<NewEvent>)
    requires Lists(listing, book)
  {
    && b.id in book && SameParties(b, book[b.id].agreement)
    && ChangedAll(book, main) == book[b.id := Document(b, book[b.id].version + |main|)]
    && events == main + ArchiveEvents(book, Without(Related(book, listing, b.consumer, b.eservice, IsLive), b.id),
                                      stamp)
  }

  lemma TakingFurtherKeepsSingleLive(book: Book, events: seq<NewEvent>)
    requires Keyed(book) && SingleLive(book) && TakesFurther(book, events)
    ensures Keyed(ChangedAll(book, events)) && SingleLive(ChangedAll(book, events))
  {
    assert events == [events[0]];
    OneEvent(book, events[0]);
    ContinuationDescends(book, book, events[0]);
    DescentKeepsSingleLive(book, Changed(book, events[0]));
  }

  lemma MakingLiveKeepsSingleLive(book: Book, listing: seq<AgreementId>, b: Agreement, main: seq<NewEvent>,
                                  stamp: Stamp, events: seq<NewEvent>)
    requires Keyed(book) && SingleLive(book) && Lists(listing, book) && MakesLive(book, listing, b, main, stamp, events)
    ensures Keyed(ChangedAll(book, events)) && SingleLive(ChangedAll(book, events))
    ensures Replaced(ChangedAll(book, events), book, b)
  {
    MainThenArchiving(book, listing, main, b, book[b.id].version + |main|, stamp);
    ReplacementKeepsSingleLive(ChangedAll(book, events), book, b);
  }

  /* ---- operation by operation ---- */

  /** The events of a submission, written out. */
  predicate SubmissionEvents(book: Book, listing: seq<AgreementId>, doc: Document, stamp: Stamp, decision: Decision)
    requires Lists(listing, book)
  {
    && |decision.events| > 0
    && var main := decision.events[0];
       && main.agreement.id == doc.agreement.id && SameParties(main.agreement, doc.agreement)
       && main.version == Some(doc.version) && main.name != AgreementDeleted && main.agreement.state != Suspended
       && (decision.answer.Ok? ==> decision.answer.value == main.agreement)
       && (main.agreement.state == Active ==> decision.answer.Ok?)
       && decision.events ==
            if main.agreement.state == Active
            then [main] + ArchiveEvents(book,
                                        Without(Related(book, listing, main.agreement.consumer, main.agreement.eservice,
                                                        IsLive), main.agreement.id), stamp)
            else [main]
  }

  lemma DecideSubmissionEvents(book: Book, listing: seq<AgreementId>, w: World, auth: AuthData, doc: Document,
                               e: EService, d: Descriptor, consumer: Tenant,
                               decision: Decision)
    requires Lists(listing, book) && DecideSubmission(book, listing, w, auth, doc, e, d, consumer) == Ok(decision)
    ensures SubmissionEvents(book, listing, doc, Stamp(auth.user, None, w.now), decision)
  {
  }

  lemma SubmissionOutcome(book: Book, listing: seq<AgreementId>, doc: Document, stamp: Stamp, decision: Decision)
    requires Keyed(book) && Lists(listing, book) && doc.agreement.id in book && book[doc.agreement.id] == doc
    requires SubmissionEvents(book, listing, doc, stamp, decision)
    ensures decision.events[0].agreement.state != Active ==> TakesFurther(book, decision.events)
    ensures decision.events[0].agreement.state == Active ==>
              decision.answer.Ok? && MakesLive(book, listing, decision.answer.value, [decision.events[0]], stamp,
                                               decision.events)
  {
    var main := decision.events[0];
    OneEvent(book, main);
    if main.agreement.state == Active {
      assert ChangedAll(book, [main]) == book[main.agreement.id := Document(main.agreement, doc.version + 1)];
    }
  }

  /** The events of an activation, written out. */
  predicate ActivationDecision(book: Book, listing: seq<AgreementId>, doc: Document, auth: AuthData,
                               delegate: Option<TenantId>, stamp: Stamp, decision: Decision)
    requires Lists(listing, book)
  {
    var a := doc.agreement;
    if decision.answer.Err? then
      |decision.events| == 1 && decision.events[0].agreement.id == a.id && SameParties(decision.events[0].agreement, a)
      && decision.events[0].agreement.state == MissingCertifiedAttributes
    else
      var b := decision.answer.value;
      && b.id == a.id && SameParties(b, a)
      && var main := MainEvents(doc, b, auth, delegate);
         main.Ok?
         && decision.events == main.value
              + ArchiveEvents(book, Without(Related(book, listing, b.consumer, b.eservice, IsLive), b.id), stamp)
  }

  lemma DecideActivationEvents(book: Book, listing: seq<AgreementId>, w: World, auth: AuthData, doc: Document,
                               delegation: Option<Delegation>,
                               e: EService, d: Descriptor, consumer: Tenant, decision: Decision)
    requires Lists(listing, book)
             && DecideActivation(book, listing, w, auth, doc, delegation, e, d, consumer) == Ok(decision)
    ensures ActivationDecision(book, listing, doc, auth, DelegateOf(delegation), Stamp(auth.user, None, w.now),
                               decision)
  {
  }

  function MainEvents(doc: Document, b: Agreement, auth: AuthData,
                      delegate: Option<TenantId>): Result<seq<NewEvent>, ServiceError>
  {
    ActivationEvents(doc.agreement.state == Pending && b.state == Active, b, doc.agreement.suspendedByPlatform,
                     doc.version, auth, delegate)
  }

  lemma MainEventsRebuild(book: Book, doc: Document, b: Agreement, auth: AuthData, delegate: Option<TenantId>)
    requires MainEvents(doc, b, auth, delegate).Ok?
    ensures var main := MainEvents(doc, b, auth, delegate).value;
            IsMain(main, b.id, doc.version) && ChangedAll(book, main) == book[b.id := Document(b, doc.version + |main|)]
  {
    EventsRebuildResult(book, doc.agreement.state == Pending && b.state == Active, b, doc.agreement.suspendedByPlatform,
                        doc.version, auth, delegate);
  }

  lemma FailedActivationOutcome(book: Book, listing: seq<AgreementId>, doc: Document, auth: AuthData,
                                delegate: Option<TenantId>, stamp: Stamp, decision: Decision)
    requires Keyed(book) && Lists(listing, book) && doc.agreement.id in book && book[doc.agreement.id] == doc
    requires ActivationDecision(book, listing, doc, auth, delegate, stamp, decision) && decision.answer.Err?
    ensures TakesFurther(book, decision.events)
  {
  }

  /** A successful activation, stored as one event or two of consecutive versions: the read model ends
      with the very agreement that the service returned. */
  lemma ActivationOutcome(book: Book, listing: seq<AgreementId>, doc: Document, auth: AuthData,
                          delegate: Option<TenantId>, stamp: Stamp, decision: Decision)
    requires Keyed(book) && Lists(listing, book) && doc.agreement.id in book && book[doc.agreement.id] == doc
    requires ActivationDecision(book, listing, doc, auth, delegate, stamp, decision) && decision.answer.Ok?
    ensures MainEvents(doc, decision.answer.value, auth, delegate).Ok?
    ensures MakesLive(book, listing, decision.answer.value,
                      MainEvents(doc, decision.answer.value, auth, delegate).value, stamp, decision.events)
  {
    MainEventsRebuild(book, doc, decision.answer.value, auth, delegate);
  }

  lemma SuspensionOutcome(book: Book, w: World, auth: AuthData, id: AgreementId, decision: Decision)
    requires Keyed(book) && Suspend(book, w, auth, id) == Ok(decision)
    ensures TakesFurther(book, decision.events)
  {
  }

  lemma RejectionOutcome(book: Book, w: World, auth: AuthData, id: AgreementId, reason: string, decision: Decision)
    requires Keyed(book) && Reject(book, w, auth, id, reason) == Ok(decision)
    ensures TakesFurther(book, decision.events)
  {
  }

  lemma ArchivalOutcome(book: Book, w: World, auth: AuthData, id: AgreementId, decision: Decision)
    requires Keyed(book) && ArchiveByConsumer(book, w, auth, id) == Ok(decision)
    ensures TakesFurther(book, decision.events)
  {
  }

  lemma DeletionOutcome(book: Book, auth: AuthData, id: AgreementId, decision: Decision)
    requires Keyed(book) && Delete(book, auth, id) == Ok(decision)
    ensures TakesFurther(book, decision.events)
  {
  }

  /** An operation that adds a draft. */
  predicate AddsDraft(events: seq<NewEvent>) {
    |events| == 1 && events[0].name == AgreementAdded && events[0].agreement.state == Draft
  }

  lemma AddingDraftKeepsSingleLive(book: Book, events: seq<NewEvent>)
    requires Keyed(book) && SingleLive(book) && AddsDraft(events)
    ensures Keyed(ChangedAll(book, events)) && SingleLive(ChangedAll(book, events))
  {
    assert events == [events[0]];
    OneEvent(book, events[0]);
  }

  /** An operation that archives a live agreement and adds one of the same parties and state. */
  predicate Upgrades(book: Book, events: seq<NewEvent>) {
    && |events| == 2
    && var prior, next := events[0], events[1];
       && prior.agreement.id in book && prior.name == AgreementArchivedByUpgrade && prior.agreement.state == Archived
       && IsLive(book[prior.agreement.id].agreement.state)
       && SameParties(prior.agreement, book[prior.agreement.id].agreement)
       && next.name == AgreementUpgraded && next.version.None? && SameParties(next.agreement, prior.agreement)
  }

  lemma UpgradingKeepsSingleLive(book: Book, events: seq<NewEvent>)
    requires Keyed(book) && SingleLive(book) && Upgrades(book, events) && events[1].agreement.id !in book
    ensures Keyed(ChangedAll(book, events)) && SingleLive(ChangedAll(book, events))
  {
    var prior, next := events[0], events[1];
    OneEvent(book, prior);
    assert events[..1] == [prior];
    assert ChangedAll(book, events) == Changed(Changed(book, prior), next);
    assert Replaced(ChangedAll(book, events), book, next.agreement);
    ReplacementKeepsSingleLive(ChangedAll(book, events), book, next.agreement);
  }

  lemma CreationOutcome(book: Book, listing: seq<AgreementId>, w: World, auth: AuthData, e: EServiceId, d: DescriptorId,
                        newId: AgreementId, decision: Decision)
    requires Lists(listing, book) && Create(book, listing, w, auth, e, d, newId) == Ok(decision)
    ensures AddsDraft(decision.events)
  {
  }

  lemma CloningOutcome(book: Book, listing: seq<AgreementId>, w: World, auth: AuthData, id: AgreementId,
                       newId: AgreementId, decision: Decision)
    requires Lists(listing, book) && Clone(book, listing, w, auth, id, newId) == Ok(decision)
    ensures AddsDraft(decision.events)
  {
  }

  lemma UpgradeOutcome(book: Book, listing: seq<AgreementId>, w: World, auth: AuthData, id: AgreementId,
                       newId: AgreementId, decision: Decision)
    requires Keyed(book) && Lists(listing, book) && Upgrade(book, listing, w, auth, id, newId) == Ok(decision)
    ensures AddsDraft(decision.events) || (Upgrades(book, decision.events) && decision.events[1].agreement.id == newId)
  {
  }

  /* ---- flags agree with state ---- */

  predicate AnyFlag(a: Agreement) {
    a.suspendedByConsumer == Some(true) || a.suspendedByProducer == Some(true) || a.suspendedByPlatform == Some(true)
  }

  predicate SuspendedByParty(a: Agreement) {
    a.suspendedByConsumer == Some(true) || a.suspendedByProducer == Some(true)
  }

  /** Active means that no flag is set; suspended, that one is, or that the platform's has yet to be
      computed; and before activation neither party has suspended anything. */
  predicate FlagsAgree(a: Agreement) {
    match a.state
    case Active => !AnyFlag(a)
    case Suspended => AnyFlag(a) || a.suspendedByPlatform.None?
    case Archived => true
    case _ => !SuspendedByParty(a)
  }

  predicate AllFlagsAgree(book: Book) {
    forall id :: id in book ==> FlagsAgree(book[id].agreement)
  }

  lemma SubmissionKeepsFlags(book: Book, listing: seq<AgreementId>, w: World, auth: AuthData, doc: Document,
                             e: EService, d: Descriptor, consumer: Tenant,
                             decision: Decision)
    requires Lists(listing, book) && doc.agreement.state == Draft
    requires DecideSubmission(book, listing, w, auth, doc, e, d, consumer) == Ok(decision)
    ensures |decision.events| > 0 && (FlagsAgree(decision.events[0].agreement) <==> !SuspendedByParty(doc.agreement))
  {
  }

  lemma ActivationKeepsFlags(book: Book, listing: seq<AgreementId>, w: World, auth: AuthData, doc: Document,
                             delegation: Option<Delegation>,
                             e: EService, d: Descriptor, consumer: Tenant, decision: Decision)
    requires Lists(listing, book) && FlagsAgree(doc.agreement)
             && (doc.agreement.state == Pending || doc.agreement.state == Suspended)
    requires DecideActivation(book, listing, w, auth, doc, delegation, e, d, consumer) == Ok(decision)
    ensures decision.answer.Ok? ==> FlagsAgree(decision.answer.value)
    ensures decision.answer.Err? ==> |decision.events| == 1 && FlagsAgree(decision.events[0].agreement)
  {
  }

  lemma SuspensionKeepsFlags(book: Book, w: World, auth: AuthData, id: AgreementId, decision: Decision)
    requires Suspend(book, w, auth, id) == Ok(decision)
    ensures |decision.events| == 1 && FlagsAgree(decision.events[0].agreement)
  {
  }

  lemma RejectionKeepsFlags(book: Book, w: World, auth: AuthData, id: AgreementId, reason: string, decision: Decision)
    requires Reject(book, w, auth, id, reason) == Ok(decision)
    ensures |decision.events| == 1 && FlagsAgree(decision.events[0].agreement)
  {
  }

  /** The new draft of an upgrade disagrees exactly when a party had suspended the agreement. */
  lemma UpgradeKeepsFlags(book: Book, listing: seq<AgreementId>, w: World, auth: AuthData, id: AgreementId,
                          newId: AgreementId, decision: Decision)
    requires Keyed(book) && Lists(listing, book) && Upgrade(book, listing, w, auth, id, newId) == Ok(decision)
    requires id in book && FlagsAgree(book[id].agreement)
    ensures AddsDraft(decision.events) ==>
              (FlagsAgree(decision.events[0].agreement) <==> !SuspendedByParty(book[id].agreement))
    ensures Upgrades(book, decision.events) ==>
              FlagsAgree(decision.events[0].agreement) && FlagsAgree(decision.events[1].agreement)
  {
  }

  lemma CloneKeepsFlags(book: Book, listing: seq<AgreementId>, w: World, auth: AuthData, id: AgreementId,
                        newId: AgreementId, decision: Decision)
    requires Lists(listing, book) && Clone(book, listing, w, auth, id, newId) == Ok(decision) && id in book
             && FlagsAgree(book[id].agreement)
    ensures AddsDraft(decision.events) && FlagsAgree(decision.events[0].agreement)
  {
  }

  lemma EventsKeepFlags(book: Book, events: seq<NewEvent>)
    requires AllFlagsAgree(book) && forall k :: 0 <= k < |events| ==> FlagsAgree(events[k].agreement)
    ensures AllFlagsAgree(ChangedAll(book, events))
  {
    if events != [] {
      EventsKeepFlags(book, events[..|events| - 1]);
    }
  }

  lemma ReplacementKeepsFlags(after: Book, book: Book, b: Agreement)
    requires AllFlagsAgree(book) && Replaced(after, book, b) && FlagsAgree(b)
    ensures AllFlagsAgree(after)
  {
  }

  /* ---- requests ---- */

  /** The guards of a submission passed. */
  lemma SubmissionGoesAhead(book: Book, listing: seq<AgreementId>, w: World, auth: AuthData, id: AgreementId)
    returns (e: EService, d: Descriptor, consumer: Tenant)
    requires Lists(listing, book)
    ensures Submit(book, listing, w, auth, id).Ok? ==>
              && id in book && book[id].agreement.state == Draft
              && DecideSubmission(book, listing, w, auth, book[id], e, d, consumer)
                   == Submit(book, listing, w, auth, id)
  {
    if Submit(book, listing, w, auth, id).Ok? {
      var a := book[id].agreement;
      consumer, e := w.tenants[a.consumer], w.eservices[a.eservice];
      d := ValidateLatest(e, a.descriptor, {Published, SuspendedDescriptor}).value;
    } else {
      e, d, consumer := *, *, *;
    }
  }

  lemma ActivationGoesAhead(book: Book, listing: seq<AgreementId>, w: World, auth: AuthData, id: AgreementId)
    returns (delegation: Option<Delegation>, e: EService, d: Descriptor, consumer: Tenant)
    requires Lists(listing, book) && Activate(book, listing, w, auth, id).Ok?
    ensures id in book && (book[id].agreement.state == Pending || book[id].agreement.state == Suspended)
    ensures DecideActivation(book, listing, w, auth, book[id], delegation, e, d, consumer)
            == Activate(book, listing, w, auth, id)
  {
    var a := book[id].agreement;
    delegation, consumer, e := DelegationOf(w, a.eservice), w.tenants[a.consumer], w.eservices[a.eservice];
    d := RetrieveDescriptor(e, a.descriptor).value;
  }

  /** A new draft is about to be made of an agreement that a party suspended. */
  predicate DraftsSuspended(book: Book, r: Request)
    requires Lists(r.listing, book)
  {
    && r.command.UpgradeAgreement? && r.command.id in book && SuspendedByParty(book[r.command.id].agreement)
    && var decided := Decide(book, r);
       decided.Ok? && AddsDraft(decided.value.events)
  }

  lemma SubmissionKeeps(book: Book, r: Request, decision: Decision)
    requires Keyed(book) && SingleLive(book) && Lists(r.listing, book)
    requires r.command.SubmitAgreement? && Decide(book, r) == Ok(decision)
    ensures Keyed(ChangedAll(book, decision.events)) && SingleLive(ChangedAll(book, decision.events))
    ensures AllFlagsAgree(book) ==> AllFlagsAgree(ChangedAll(book, decision.events))
  {
    var e, d, consumer := SubmissionGoesAhead(book, r.listing, r.world, r.auth, r.command.id);
    var doc, stamp := book[r.command.id], Stamp(r.auth.user, None, r.world.now);
    DecideSubmissionEvents(book, r.listing, r.world, r.auth, doc, e, d, consumer, decision);
    SubmissionKeepsFlags(book, r.listing, r.world, r.auth, doc, e, d, consumer, decision);
    SubmissionKeepsBoth(book, r.listing, doc, stamp, decision);
  }

  lemma SubmissionKeepsBoth(book: Book, listing: seq<AgreementId>, doc: Document, stamp: Stamp, decision: Decision)
    requires Keyed(book) && SingleLive(book) && Lists(listing, book) && doc.agreement.id in book
             && book[doc.agreement.id] == doc
    requires SubmissionEvents(book, listing, doc, stamp, decision)
    ensures Keyed(ChangedAll(book, decision.events)) && SingleLive(ChangedAll(book, decision.events))
    ensures AllFlagsAgree(book) && FlagsAgree(decision.events[0].agreement) ==>
              AllFlagsAgree(ChangedAll(book, decision.events))
  {
    SubmissionOutcome(book, listing, doc, stamp, decision);
    if TakesFurther(book, decision.events) {
      TakingFurtherKeepsSingleLive(book, decision.events);
      if AllFlagsAgree(book) && FlagsAgree(decision.events[0].agreement) {
        EventsKeepFlags(book, decision.events);
      }
    } else {
      var b := decision.answer.value;
      MakingLiveKeepsSingleLive(book, listing, b, [decision.events[0]], stamp, decision.events);
      if AllFlagsAgree(book) && FlagsAgree(b) {
        ReplacementKeepsFlags(ChangedAll(book, decision.events), book, b);
      }
    }
  }

  lemma ActivationKeeps(book: Book, r: Request, decision: Decision)
    requires Keyed(book) && SingleLive(book) && Lists(r.listing, book)
    requires r.command.ActivateAgreement? && Decide(book, r) == Ok(decision)
    ensures Keyed(ChangedAll(book, decision.events)) && SingleLive(ChangedAll(book, decision.events))
    ensures AllFlagsAgree(book) ==> AllFlagsAgree(ChangedAll(book, decision.events))
  {
    var delegation, e, d, consumer := ActivationGoesAhead(book, r.listing, r.world, r.auth, r.command.id);
    var doc, stamp := book[r.command.id], Stamp(r.auth.user, None, r.world.now);
    DecideActivationEvents(book, r.listing, r.world, r.auth, doc, delegation, e, d, consumer, decision);
    if AllFlagsAgree(book) {
      ActivationKeepsFlags(book, r.listing, r.world, r.auth, doc, delegation, e, d, consumer, decision);
    }
    ActivationKeepsBoth(book, r.listing, doc, r.auth, DelegateOf(delegation), stamp, decision);
  }

  lemma ActivationKeepsBoth(book: Book, listing: seq<AgreementId>, doc: Document, auth: AuthData,
                            delegate: Option<TenantId>, stamp: Stamp, decision: Decision)
    requires Keyed(book) && SingleLive(book) && Lists(listing, book) && doc.agreement.id in book
             && book[doc.agreement.id] == doc
    requires ActivationDecision(book, listing, doc, auth, delegate, stamp, decision)
    ensures Keyed(ChangedAll(book, decision.events)) && SingleLive(ChangedAll(book, decision.events))
    ensures AllFlagsAgree(book)
            && (if decision.answer.Ok? then FlagsAgree(decision.answer.value)
                else FlagsAgree(decision.events[0].agreement))
            ==> AllFlagsAgree(ChangedAll(book, decision.events))
    ensures decision.answer.Ok? ==> Replaced(ChangedAll(book, decision.events), book, decision.answer.value)
  {
    if decision.answer.Err? {
      FailedActivationOutcome(book, listing, doc, auth, delegate, stamp, decision);
      TakingFurtherKeepsSingleLive(book, decision.events);
      if AllFlagsAgree(book) && FlagsAgree(decision.events[0].agreement) {
        EventsKeepFlags(book, decision.events);
      }
    } else {
      var b := decision.answer.value;
      ActivationOutcome(book, listing, doc, auth, delegate, stamp, decision);
      MakingLiveKeepsSingleLive(book, listing, b, MainEvents(doc, b, auth, delegate).value, stamp, decision.events);
      if AllFlagsAgree(book) && FlagsAgree(b) {
        ReplacementKeepsFlags(ChangedAll(book, decision.events), book, b);
      }
    }
  }

  lemma DraftKeeps(book: Book, r: Request, decision: Decision)
    requires Keyed(book) && SingleLive(book) && Lists(r.listing, book)
    requires r.command.CreateAgreement? || r.command.CloneAgreement?
    requires Decide(book, r) == Ok(decision)
    ensures Keyed(ChangedAll(book, decision.events)) && SingleLive(ChangedAll(book, decision.events))
    ensures AllFlagsAgree(book) ==> AllFlagsAgree(ChangedAll(book, decision.events))
  {
    match r.command
    case CreateAgreement(e, d, newId) => CreationOutcome(book, r.listing, r.world, r.auth, e, d, newId, decision);
    case CloneAgreement(id, newId) => CloningOutcome(book, r.listing, r.world, r.auth, id, newId, decision);
    AddingDraftKeepsSingleLive(book, decision.events);
    if AllFlagsAgree(book) {
      if r.command.CloneAgreement? {
        CloneKeepsFlags(book, r.listing, r.world, r.auth, r.command.id, r.command.newId, decision);
      } else {
        CreationKeepsFlags(book, r, decision);
      }
      EventsKeepFlags(book, decision.events);
    }
  }

  lemma CreationKeepsFlags(book: Book, r: Request, decision: Decision)
    requires Lists(r.listing, book) && r.command.CreateAgreement? && Decide(book, r) == Ok(decision)
    ensures |decision.events| == 1 && FlagsAgree(decision.events[0].agreement)
  {
  }

  lemma UpgradeKeeps(book: Book, r: Request, decision: Decision)
    requires Keyed(book) && SingleLive(book) && Lists(r.listing, book)
    requires r.command.UpgradeAgreement? && Decide(book, r) == Ok(decision)
    requires Upgrades(book, decision.events) ==> decision.events[1].agreement.id !in book
    ensures Keyed(ChangedAll(book, decision.events)) && SingleLive(ChangedAll(book, decision.events))
    ensures AllFlagsAgree(book) && !DraftsSuspended(book, r) ==> AllFlagsAgree(ChangedAll(book, decision.events))
  {
    UpgradeOutcome(book, r.listing, r.world, r.auth, r.command.id, r.command.newId, decision);
    if AddsDraft(decision.events) {
      AddingDraftKeepsSingleLive(book, decision.events);
    } else {
      UpgradingKeepsSingleLive(book, decision.events);
    }
    if AllFlagsAgree(book) && !DraftsSuspended(book, r) {
      UpgradeSource(book, r, decision);
      UpgradeKeepsFlags(book, r.listing, r.world, r.auth, r.command.id, r.command.newId, decision);
      EventsKeepFlags(book, decision.events);
    }
  }

  lemma UpgradeSource(book: Book, r: Request, decision: Decision)
    requires Lists(r.listing, book) && r.command.UpgradeAgreement? && Decide(book, r) == Ok(decision)
    ensures r.command.id in book
  {
  }

  lemma StepKeeps(book: Book, r: Request, decision: Decision)
    requires Keyed(book) && SingleLive(book) && Lists(r.listing, book)
    requires r.command.SuspendAgreement? || r.command.ArchiveAgreement? || r.command.RejectAgreement?
             || r.command.DeleteAgreement?
    requires Decide(book, r) == Ok(decision)
    ensures Keyed(ChangedAll(book, decision.events)) && SingleLive(ChangedAll(book, decision.events))
    ensures AllFlagsAgree(book) ==> AllFlagsAgree(ChangedAll(book, decision.events))
  {
    match r.command
    case SuspendAgreement(id) =>
      SuspensionOutcome(book, r.world, r.auth, id, decision);
      SuspensionKeepsFlags(book, r.world, r.auth, id, decision);
    case ArchiveAgreement(id) => ArchivalOutcome(book, r.world, r.auth, id, decision);
    case RejectAgreement(id, reason) =>
      RejectionOutcome(book, r.world, r.auth, id, reason, decision);
      RejectionKeepsFlags(book, r.world, r.auth, id, reason, decision);
    case DeleteAgreement(id) => DeletionOutcome(book, r.auth, id, decision);
    TakingFurtherKeepsSingleLive(book, decision.events);
    if AllFlagsAgree(book) {
      EventsKeepFlags(book, decision.events);
    }
  }

  lemma DecisionKeeps(book: Book, r: Request, decision: Decision)
    requires Keyed(book) && SingleLive(book) && Lists(r.listing, book)
    requires !r.command.RecomputeAgreements? && Decide(book, r) == Ok(decision)
    requires Upgrades(book, decision.events) ==> decision.events[1].agreement.id !in book
    ensures Keyed(ChangedAll(book, decision.events)) && SingleLive(ChangedAll(book, decision.events))
    ensures AllFlagsAgree(book) && !DraftsSuspended(book, r) ==> AllFlagsAgree(ChangedAll(book, decision.events))
  {
    if r.command.SubmitAgreement? {
      SubmissionKeeps(book, r, decision);
    } else if r.command.ActivateAgreement? {
      ActivationKeeps(book, r, decision);
    } else if r.command.UpgradeAgreement? {
      UpgradeKeeps(book, r, decision);
    } else if r.command.CreateAgreement? || r.command.CloneAgreement? {
      DraftKeeps(book, r, decision);
    } else {
      StepKeeps(book, r, decision);
    }
  }

  /** A transaction with an event for a new stream fails unless the stream is new. */
  lemma NewStreamIsNew(rows: seq<Row>, events: seq<NewEvent>)
    requires Numbered(rows) && |events| == 2 && events[1].version.None? && InsertAll(rows, events).Some?
    ensures events[1].agreement.id !in ReadModel(rows)
  {
    assert events[..1] == [events[0]] && events[..1][..0] == [];
    assert InsertAll(rows, events[..1][..0]) == Some(rows);
    assert InsertAll(rows, events[..1]) == Insert(rows, events[0]);
    var more := Insert(rows, events[0]).value;
    InsertIsExact(rows, events[0]);
    InsertIsExact(more, events[1]);
    ReadModelIsLatest(rows, events[1].agreement.id);
    assert more[..|more| - 1] == rows;
  }

  /* ---- recomputation ---- */

  lemma {:induction false} RecomputeEventsContinue(book: Book, listing: seq<AgreementId>, w: World,
                                                   attribute: AttributeId, consumer: Tenant, k: nat)
    requires Keyed(book) && forall id :: id in listing ==> id in book
    requires k < |RecomputeEvents(book, listing, w, attribute, consumer)|
    ensures Continues(RecomputeEvents(book, listing, w, attribute, consumer)[k], book)
    ensures AllFlagsAgree(book) ==> FlagsAgree(RecomputeEvents(book, listing, w, attribute, consumer)[k].agreement)
  {
    var before := RecomputeEvents(book, listing[..|listing| - 1], w, attribute, consumer);
    if k < |before| {
      RecomputeEventsContinue(book, listing[..|listing| - 1], w, attribute, consumer, k);
    } else {
      RecomputedContinues(book[listing[|listing| - 1]].agreement, attribute, consumer, w);
    }
  }

  lemma RecomputedContinues(a: Agreement, attribute: AttributeId, consumer: Tenant, w: World)
    ensures var r := RecomputeOne(a, attribute, consumer, w.eservices, w.now);
            r.Emitted? ==>
              && r.agreement.id == a.id && SameParties(r.agreement, a)
              && (IsLive(r.agreement.state) ==> IsLive(a.state))
              && (FlagsAgree(a) ==> FlagsAgree(r.agreement))
  {
  }

  lemma {:induction false} EachKeeps(rows: seq<Row>, events: seq<NewEvent>, book: Book)
    requires Numbered(rows) && Descends(ReadModel(rows), book)
    requires forall k :: 0 <= k < |events| ==> Continues(events[k], book)
    decreases |events|
    ensures Numbered(InsertEach(rows, events)) && Descends(ReadModel(InsertEach(rows, events)), book)
    ensures AllFlagsAgree(ReadModel(rows)) && (forall k :: 0 <= k < |events| ==> FlagsAgree(events[k].agreement))
            ==> AllFlagsAgree(ReadModel(InsertEach(rows, events)))
  {
    if events != [] && Insert(rows, events[0]).Some? {
      ChangedByInsertion(rows, events[0]);
      ContinuationDescends(book, ReadModel(rows), events[0]);
      EachKeeps(Insert(rows, events[0]).value, events[1..], book);
    }
  }

  /* ---- runs ---- */

  lemma ExecuteKeeps(rows: seq<Row>, r: Request)
    requires Numbered(rows) && Keyed(ReadModel(rows)) && SingleLive(ReadModel(rows))
             && Lists(r.listing, ReadModel(rows))
    ensures Numbered(Execute(rows, r)) && Keyed(ReadModel(Execute(rows, r))) && SingleLive(ReadModel(Execute(rows, r)))
    ensures AllFlagsAgree(ReadModel(rows)) && !DraftsSuspended(ReadModel(rows), r) ==>
              AllFlagsAgree(ReadModel(Execute(rows, r)))
  {
    var book := ReadModel(rows);
    if r.command.RecomputeAgreements? {
      RecomputationKeeps(rows, r);
    } else if Decide(book, r).Ok? {
      var decision := Decide(book, r).value;
      if InsertAll(rows, decision.events).Some? {
        if Upgrades(book, decision.events) {
          NewStreamIsNew(rows, decision.events);
        }
        ChangedByTransaction(rows, decision.events);
        DecisionKeeps(book, r, decision);
      }
    }
  }

  lemma RecomputationKeeps(rows: seq<Row>, r: Request)
    requires Numbered(rows) && Keyed(ReadModel(rows)) && SingleLive(ReadModel(rows))
             && Lists(r.listing, ReadModel(rows))
    requires r.command.RecomputeAgreements?
    ensures Numbered(Execute(rows, r)) && Keyed(ReadModel(Execute(rows, r))) && SingleLive(ReadModel(Execute(rows, r)))
    ensures AllFlagsAgree(ReadModel(rows)) ==> AllFlagsAgree(ReadModel(Execute(rows, r)))
  {
    var book, attribute, consumer := ReadModel(rows), r.command.attribute, r.command.consumer;
    var events := RecomputeEvents(book, r.listing, r.world, attribute, consumer);
    forall k | 0 <= k < |events|
      ensures Continues(events[k], book) && (AllFlagsAgree(book) ==> FlagsAgree(events[k].agreement))
    {
      RecomputeEventsContinue(book, r.listing, r.world, attribute, consumer, k);
    }
    EachKeeps(rows, events, book);
    DescentKeepsSingleLive(book, ReadModel(InsertEach(rows, events)));
  }

  /** Single live agreement: over every run of the service, each consumer has at most one active or
      suspended agreement for an e-service. */
  lemma {:induction false} SingleLiveAgreement(rows: seq<Row>, rs: seq<Request>)
    requires Numbered(rows) && Keyed(ReadModel(rows)) && SingleLive(ReadModel(rows)) && IsRun(rows, rs)
    decreases |rs|
    ensures SingleLive(ReadModel(ExecuteAll(rows, rs)))
  {
    if rs != [] {
      ExecuteKeeps(rows, rs[0]);
      SingleLiveAgreement(Execute(rows, rs[0]), rs[1..]);
    }
  }

  /** The runs in which no new draft is made of an agreement that a party suspended. */
  ghost predicate NeverDraftsSuspended(rows: seq<Row>, rs: seq<Request>)
    requires IsRun(rows, rs)
    decreases |rs|
  {
    rs == [] || (!DraftsSuspended(ReadModel(rows), rs[0]) && NeverDraftsSuspended(Execute(rows, rs[0]), rs[1..]))
  }

  /** Flags agree with state, over every such run. */
  lemma {:induction false} FlagsAgreeWithState(rows: seq<Row>, rs: seq<Request>)
    requires Numbered(rows) && Keyed(ReadModel(rows)) && SingleLive(ReadModel(rows)) && AllFlagsAgree(ReadModel(rows))
    requires IsRun(rows, rs) && NeverDraftsSuspended(rows, rs)
    decreases |rs|
    ensures AllFlagsAgree(ReadModel(ExecuteAll(rows, rs)))
  {
    if rs != [] {
      ExecuteKeeps(rows, rs[0]);
      FlagsAgreeWithState(Execute(rows, rs[0]), rs[1..]);
    }
  }

  lemma ActivationReplaces(book: Book, r: Request, decision: Decision)
    requires Keyed(book) && SingleLive(book) && Lists(r.listing, book)
    requires r.command.ActivateAgreement? && Decide(book, r) == Ok(decision) && decision.answer.Ok?
    ensures decision.answer.value.id == r.command.id
            && Replaced(ChangedAll(book, decision.events), book, decision.answer.value)
  {
    var delegation, e, d, consumer := ActivationGoesAhead(book, r.listing, r.world, r.auth, r.command.id);
    var doc, stamp := book[r.command.id], Stamp(r.auth.user, None, r.world.now);
    DecideActivationEvents(book, r.listing, r.world, r.auth, doc, delegation, e, d, consumer, decision);
    ActivationKeepsBoth(book, r.listing, doc, r.auth, DelegateOf(delegation), stamp, decision);
  }

  lemma StoredDecision(rows: seq<Row>, r: Request, decision: Decision)
    requires Numbered(rows) && Lists(r.listing, ReadModel(rows)) && !r.command.RecomputeAgreements?
    requires Decide(ReadModel(rows), r) == Ok(decision) && InsertAll(rows, decision.events).Some?
    ensures ReadModel(Execute(rows, r)) == ChangedAll(ReadModel(rows), decision.events)
  {
    ChangedByTransaction(rows, decision.events);
  }

  /* ---- an up-to-date service is never turned down ---- */

  predicate NoRepeats(ids: seq<AgreementId>) {
    forall i, k :: 0 <= i < k < |ids| ==> ids[i] != ids[k]
  }

  lemma {:induction false} ArchiveEventAt(book: Book, ids: seq<AgreementId>, stamp: Stamp, k: nat)
    requires forall id :: id in ids ==> id in book
    requires k < |ids|
    ensures |ArchiveEvents(book, ids, stamp)| == |ids|
    ensures ArchiveEvents(book, ids, stamp)[k]
            == NewEvent(AgreementArchivedByUpgrade, Archive(book[ids[k]].agreement, stamp), Some(book[ids[k]].version))
  {
    if |ids| > 1 {
      ArchiveEventAt(book, ids[..|ids| - 1], stamp, if k < |ids| - 1 then k else 0);
    }
  }

  lemma {:induction false} RelatedHasNoRepeats(book: Book, listing: seq<AgreementId>, consumer: TenantId,
                                               eservice: EServiceId, states: AgreementState -> bool)
    requires NoRepeats(listing) && forall id :: id in listing ==> id in book
    ensures NoRepeats(Related(book, listing, consumer, eservice, states))
  {
    if listing != [] {
      RelatedHasNoRepeats(book, listing[..|listing| - 1], consumer, eservice, states);
    }
  }

  lemma {:induction false} WithoutHasNoRepeats(ids: seq<AgreementId>, id: AgreementId)
    requires NoRepeats(ids)
    ensures NoRepeats(Without(ids, id))
  {
    if ids != [] {
      WithoutHasNoRepeats(ids[..|ids| - 1], id);
      assert ids[|ids| - 1] !in ids[..|ids| - 1];
    }
  }

  lemma ArchivesAreUpToDate(rows: seq<Row>, book: Book, ids: seq<AgreementId>, stamp: Stamp)
    requires Keyed(book) && NoRepeats(ids)
    requires forall id :: id in ids ==> id in book && CountOf(rows, id) == book[id].version + 1
    ensures UpToDate(rows, ArchiveEvents(book, ids, stamp))
  {
    var events := ArchiveEvents(book, ids, stamp);
    forall k | 0 <= k < |ids|
      ensures |events| == |ids| && events[k].agreement.id == ids[k] && events[k].version == Some(book[ids[k]].version)
    {
      ArchiveEventAt(book, ids, stamp, k);
    }
  }

  /** The events of an activation, one or two of the agreement and one for each that gives way, fit the
      streams of the read model that they were decided from. */
  lemma ActivationIsStored(rows: seq<Row>, book: Book, listing: seq<AgreementId>, b: Agreement, version: nat,
                           main: seq<NewEvent>, stamp: Stamp, events: seq<NewEvent>)
    requires Numbered(rows) && book == ReadModel(rows) && Keyed(book) && Lists(listing, book) && NoRepeats(listing)
    requires b.id in book && book[b.id].version == version && IsMain(main, b.id, version)
    requires events == main + ArchiveEvents(book, Without(Related(book, listing, b.consumer, b.eservice, IsLive), b.id),
                                            stamp)
    ensures InsertAll(rows, events).Some?
  {
    var others := Without(Related(book, listing, b.consumer, b.eservice, IsLive), b.id);
    ReadModelIsLatest(rows, b.id);
    MainIsStored(rows, b.id, main);
    var more := InsertAll(rows, main).value;
    RelatedHasNoRepeats(book, listing, b.consumer, b.eservice, IsLive);
    WithoutHasNoRepeats(Related(book, listing, b.consumer, b.eservice, IsLive), b.id);
    forall id | id in others ensures id in book && CountOf(more, id) == book[id].version + 1 {
      ReadModelIsLatest(rows, id);
    }
    ArchivesAreUpToDate(more, book, others, stamp);
    UpToDateEventsAreStored(more, ArchiveEvents(book, others, stamp));
    InsertTogether(rows, main, ArchiveEvents(book, others, stamp));
  }

  /** One event or two of an agreement, of consecutive versions. */
  predicate IsMain(main: seq<NewEvent>, id: AgreementId, version: nat) {
    1 <= |main| <= 2 && forall k :: 0 <= k < |main| ==>
        main[k].agreement.id == id && main[k].version == Some(version + k)
  }

  lemma MainIsStored(rows: seq<Row>, id: AgreementId, main: seq<NewEvent>)
    requires Numbered(rows) && CountOf(rows, id) > 0 && IsMain(main, id, CountOf(rows, id) - 1)
    ensures InsertAll(rows, main).Some? && Numbered(InsertAll(rows, main).value)
    ensures forall other :: other != id ==> CountOf(InsertAll(rows, main).value, other) == CountOf(rows, other)
  {
    assert main[..1] == [main[0]] && main[..1][..0] == [];
    assert InsertAll(rows, main[..1][..0]) == Some(rows);
    InsertIsExact(rows, main[0]);
    var more := Insert(rows, main[0]).value;
    assert InsertAll(rows, main[..1]) == Some(more);
    forall other ensures CountOf(more, other) == CountOf(rows, other) + if other == id then 1 else 0 {
      CountAfterInsert(rows, main[0], other);
    }
    if |main| == 2 {
      InsertIsExact(more, main[1]);
      forall other | other != id ensures CountOf(Insert(more, main[1]).value, other) == CountOf(rows, other) {
        CountAfterInsert(more, main[1], other);
      }
    } else {
      assert main == main[..1];
    }
  }

  /** The request is answered with an agreement. */
  predicate Answers(book: Book, r: Request)
    requires Lists(r.listing, book) && !r.command.RecomputeAgreements?
  {
    Decide(book, r).Ok? && Decide(book, r).value.answer.Ok?
  }

  /** The transaction of a successful activation is never turned down. */
  lemma ActivationFits(rows: seq<Row>, r: Request)
    requires Numbered(rows) && Keyed(ReadModel(rows)) && Lists(r.listing, ReadModel(rows)) && NoRepeats(r.listing)
    requires r.command.ActivateAgreement?
    ensures Answers(ReadModel(rows), r) ==> InsertAll(rows, Decide(ReadModel(rows), r).value.events).Some?
  {
    var book := ReadModel(rows);
    if Answers(book, r) {
      var decision := Decide(book, r).value;
      var delegation, e, d, consumer := ActivationGoesAhead(book, r.listing, r.world, r.auth, r.command.id);
      var doc, stamp := book[r.command.id], Stamp(r.auth.user, None, r.world.now);
      DecideActivationEvents(book, r.listing, r.world, r.auth, doc, delegation, e, d, consumer, decision);
      ActivationDecisionFits(rows, book, r.listing, doc, r.auth, DelegateOf(delegation), stamp, decision);
    }
  }

  lemma ActivationDecisionFits(rows: seq<Row>, book: Book, listing: seq<AgreementId>, doc: Document, auth: AuthData,
                               delegate: Option<TenantId>, stamp: Stamp,
                               decision: Decision)
    requires Numbered(rows) && book == ReadModel(rows) && Keyed(book) && Lists(listing, book) && NoRepeats(listing)
    requires doc.agreement.id in book && book[doc.agreement.id] == doc
    requires ActivationDecision(book, listing, doc, auth, delegate, stamp, decision) && decision.answer.Ok?
    ensures InsertAll(rows, decision.events).Some?
  {
    var b := decision.answer.value;
    MainEventsRebuild(book, doc, b, auth, delegate);
    ActivationIsStored(rows, book, listing, b, doc.version, MainEvents(doc, b, auth, delegate).value, stamp,
                       decision.events);
  }

  /** Emitted events rebuild the result: the events of a successful activation are stored, and the read
      model folded from the event table shows the very agreement that the service returned, no other
      agreement of its parties being live. */
  lemma ActivationIsRebuilt(rows: seq<Row>, r: Request)
    requires Numbered(rows) && Keyed(ReadModel(rows)) && SingleLive(ReadModel(rows))
    requires Lists(r.listing, ReadModel(rows)) && NoRepeats(r.listing) && r.command.ActivateAgreement?
    ensures Answers(ReadModel(rows), r) ==>
              var after, b := ReadModel(Execute(rows, r)), Decide(ReadModel(rows), r).value.answer.value;
              && r.command.id in after && after[r.command.id].agreement == b
              && Replaced(after, ReadModel(rows), b)
  {
    if Answers(ReadModel(rows), r) {
      var decision := Decide(ReadModel(rows), r).value;
      ActivationFits(rows, r);
      StoredDecision(rows, r, decision);
      ActivationReplaces(ReadModel(rows), r, decision);
    }
  }

  /* ---- recomputing twice ---- */

  lemma {:induction false} EachOfAll(rows: seq<Row>, events: seq<NewEvent>)
    requires InsertAll(rows, events).Some?
    decreases |events|
    ensures InsertEach(rows, events) == InsertAll(rows, events).value
  {
    if events != [] {
      var first, rest := events[..1], events[1..];
      assert first + rest == events && first == [events[0]];
      PrefixIsStored(rows, events);
      InsertTogether(rows, first, rest);
      assert first[..0] == [] && InsertAll(rows, first[..0]) == Some(rows);
      assert InsertAll(rows, first) == Insert(rows, events[0]);
      EachOfAll(Insert(rows, events[0]).value, rest);
    }
  }

  lemma PrefixIsStored(rows: seq<Row>, events: seq<NewEvent>)
    requires events != [] && InsertAll(rows, events).Some?
    ensures InsertAll(rows, events[..1]).Some?
  {
    if InsertAll(rows, events[..1]).None? {
      FailedPrefix(rows, events, 1);
    }
  }

  /** The events of a recomputation are of listed agreements, each with the version read. */
  lemma {:induction false} RecomputeEventAt(book: Book, listing: seq<AgreementId>, w: World, attribute: AttributeId,
                                            consumer: Tenant, k: nat)
    requires Keyed(book) && forall id :: id in listing ==> id in book
    requires k < |RecomputeEvents(book, listing, w, attribute, consumer)|
    ensures var e := RecomputeEvents(book, listing, w, attribute, consumer)[k];
            e.agreement.id in listing && e.version == Some(book[e.agreement.id].version) && e.name != AgreementDeleted
  {
    var n := |listing| - 1;
    var before := RecomputeEvents(book, listing[..n], w, attribute, consumer);
    if k < |before| {
      RecomputeEventAt(book, listing[..n], w, attribute, consumer, k);
    } else {
      RecomputedContinues(book[listing[n]].agreement, attribute, consumer, w);
    }
  }

  lemma {:induction false} RecomputeEventsAreUpToDate(rows: seq<Row>, book: Book, listing: seq<AgreementId>, w: World,
                                                      attribute: AttributeId, consumer: Tenant)
    requires Keyed(book) && NoRepeats(listing)
    requires forall id :: id in listing ==> id in book && CountOf(rows, id) == book[id].version + 1
    ensures UpToDate(rows, RecomputeEvents(book, listing, w, attribute, consumer))
  {
    if listing != [] {
      var n := |listing| - 1;
      var before := RecomputeEvents(book, listing[..n], w, attribute, consumer);
      RecomputeEventsAreUpToDate(rows, book, listing[..n], w, attribute, consumer);
      forall k | 0 <= k < |before| ensures before[k].agreement.id in listing[..n] {
        RecomputeEventAt(book, listing[..n], w, attribute, consumer, k);
      }
      assert listing[n] !in listing[..n];
      RecomputedContinues(book[listing[n]].agreement, attribute, consumer, w);
    }
  }

  lemma ChangedAfter(book: Book, events: seq<NewEvent>, e: NewEvent)
    ensures ChangedAll(book, events + [e]) == Changed(ChangedAll(book, events), e)
  {
    assert (events + [e])[..|events|] == events;
  }

  /** One recomputed agreement more: its own document settles, others stay. */
  lemma RecomputedNext(book: Book, sofar: Book, before: seq<NewEvent>, last: AgreementId, r: Recomputed,
                       events: seq<NewEvent>)
    requires sofar == ChangedAll(book, before) && last in book
    requires r.Emitted? ==> r.agreement.id == last && NameOf(r.name) != AgreementDeleted
    requires events == before + if r.Emitted? then [NewEvent(NameOf(r.name), r.agreement, Some(book[last].version))]
             else []
    ensures var after := ChangedAll(book, events);
            && (forall id :: id in sofar ==> id in after && (id != last || !r.Emitted? ==> after[id] == sofar[id]))
            && (r.Emitted? ==> last in after && after[last].agreement == r.agreement)
  {
    if r.Emitted? {
      ChangedAfter(book, before, NewEvent(NameOf(r.name), r.agreement, Some(book[last].version)));
    } else {
      assert before + [] == before;
    }
  }

  /** The read model after the events: each listed agreement has settled. */
  lemma {:induction false} RecomputedBook(book: Book, listing: seq<AgreementId>, w: World, attribute: AttributeId,
                                          consumer: Tenant, id: AgreementId)
    requires Keyed(book) && forall x :: x in listing ==> x in book
    requires id in book
    ensures var after := ChangedAll(book, RecomputeEvents(book, listing, w, attribute, consumer));
            && id in after
            && after[id].agreement == if id in listing
                 then Settled(book[id].agreement,
                              RecomputeOne(book[id].agreement, attribute, consumer, w.eservices, w.now))
                                      else book[id].agreement
  {
    if listing != [] {
      var n := |listing| - 1;
      var last, r := listing[n], RecomputeOne(book[listing[n]].agreement, attribute, consumer, w.eservices, w.now);
      var before := RecomputeEvents(book, listing[..n], w, attribute, consumer);
      RecomputedBook(book, listing[..n], w, attribute, consumer, id);
      assert id in listing <==> id in listing[..n] || id == last;
      RecomputedContinues(book[last].agreement, attribute, consumer, w);
      RecomputedNext(book, ChangedAll(book, before), before, last, r,
                     RecomputeEvents(book, listing, w, attribute, consumer));
    }
  }

  lemma RecomputeOneSettles(a: Agreement, attribute: AttributeId, consumer: Tenant, w: World)
    ensures var r := RecomputeOne(a, attribute, consumer, w.eservices, w.now);
            RecomputeOne(Settled(a, r), attribute, consumer, w.eservices, w.now) == Unchanged
  {
    var r := RecomputeOne(a, attribute, consumer, w.eservices, w.now);
    if r.Emitted? {
      var e := Lookup(w.eservices, a.eservice).value;
      UpdateIsFixpoint(a, FindDescriptor(e.descriptors, a.descriptor).value, consumer.attributes, w.now);
    }
  }

  lemma {:induction false} SettledBookIsQuiet(book: Book, after: Book, listing: seq<AgreementId>, w: World,
                                              attribute: AttributeId, consumer: Tenant)
    requires forall id :: id in listing ==>
               id in after && id in book
               && after[id].agreement == Settled(book[id].agreement,
                                                 RecomputeOne(book[id].agreement, attribute, consumer, w.eservices,
                                                              w.now))
    ensures RecomputeEvents(after, listing, w, attribute, consumer) == []
  {
    if listing != [] {
      SettledBookIsQuiet(book, after, listing[..|listing| - 1], w, attribute, consumer);
      RecomputeOneSettles(book[listing[|listing| - 1]].agreement, attribute, consumer, w);
    }
  }

  /** Recomputation is a fixpoint in one step: its events are all stored, and doing it again, with the
      same attributes and at the same time, stores nothing. */
  lemma RecomputeTwice(rows: seq<Row>, r: Request, again: Request)
    requires Numbered(rows) && Keyed(ReadModel(rows)) && Lists(r.listing, ReadModel(rows)) && NoRepeats(r.listing)
    requires r.command.RecomputeAgreements? && again.command == r.command && again.world == r.world
    requires Lists(again.listing, ReadModel(Execute(rows, r)))
    ensures Execute(Execute(rows, r), again) == Execute(rows, r)
  {
    var book, w, attribute, consumer := ReadModel(rows), r.world, r.command.attribute, r.command.consumer;
    if Recompute(book, r.listing, w, attribute, consumer).Ok? {
      var events := RecomputeEvents(book, r.listing, w, attribute, consumer);
      RecomputeIsStored(rows, r.listing, w, attribute, consumer);
      var after := ReadModel(Execute(rows, r));
      forall id | id in again.listing
        ensures id in book && id in after
        ensures after[id].agreement
                == Settled(book[id].agreement,
                           RecomputeOne(book[id].agreement, attribute, consumer, w.eservices, w.now))
      {
        if id !in book {
          RecomputeAddsNothing(book, r.listing, w, attribute, consumer, id);
        }
        RecomputedBook(book, r.listing, w, attribute, consumer, id);
      }
      SettledBookIsQuiet(book, after, again.listing, w, attribute, consumer);
    }
  }

  lemma RecomputeIsStored(rows: seq<Row>, listing: seq<AgreementId>, w: World, attribute: AttributeId, consumer: Tenant)
    requires Numbered(rows) && Keyed(ReadModel(rows)) && Lists(listing, ReadModel(rows)) && NoRepeats(listing)
    ensures var events := RecomputeEvents(ReadModel(rows), listing, w, attribute, consumer);
            InsertAll(rows, events).Some? && ReadModel(InsertEach(rows, events)) == ChangedAll(ReadModel(rows), events)
  {
    var book := ReadModel(rows);
    var events := RecomputeEvents(book, listing, w, attribute, consumer);
    forall id | id in listing ensures id in book && CountOf(rows, id) == book[id].version + 1 {
      ReadModelIsLatest(rows, id);
    }
    RecomputeEventsAreUpToDate(rows, book, listing, w, attribute, consumer);
    UpToDateEventsAreStored(rows, events);
    EachOfAll(rows, events);
    ChangedByTransaction(rows, events);
  }

  lemma {:induction false} RecomputeAddsNothing(book: Book, listing: seq<AgreementId>, w: World, attribute: AttributeId,
                                                consumer: Tenant, id: AgreementId)
    requires Keyed(book) && (forall x :: x in listing ==> x in book) && id !in book
    ensures id !in ChangedAll(book, RecomputeEvents(book, listing, w, attribute, consumer))
  {
    if listing != [] {
      var n := |listing| - 1;
      var r := RecomputeOne(book[listing[n]].agreement, attribute, consumer, w.eservices, w.now);
      var before := RecomputeEvents(book, listing[..n], w, attribute, consumer);
      RecomputeAddsNothing(book, listing[..n], w, attribute, consumer, id);
      RecomputedContinues(book[listing[n]].agreement, attribute, consumer, w);
      if r.Emitted? {
        ChangedAfter(book, before, NewEvent(NameOf(r.name), r.agreement, Some(book[listing[n]].version)));
      } else {
        assert before + [] == before;
      }
    }
  }

  /* ---- the service on the event store ---- */

  lemma InsertOne(rows: seq<Row>, e: NewEvent)
    ensures InsertAll(rows, [e]) == Insert(rows, e)
  {
    assert [e][..0] == [];
    assert InsertAll(rows, [e][..0]) == Some(rows);
  }

  /** A request against the stored events; a recomputation stores its events one by one.  The answer is
      good if the operation's is and all its events were stored. */
  method Serve(store: EventStore, r: Request) returns (ok: bool)
    requires Lists(r.listing, ReadModel(store.rows))
    modifies store
    ensures store.rows == Execute(old(store.rows), r)
    ensures !r.command.RecomputeAgreements? ==>
              var decided := Decide(ReadModel(old(store.rows)), r);
              ok <==> decided.Ok? && decided.value.answer.Ok?
                      && InsertAll(old(store.rows), decided.value.events).Some?
    ensures r.command.RecomputeAgreements? ==>
              var computed := Recompute(ReadModel(old(store.rows)), r.listing, r.world, r.command.attribute,
                                        r.command.consumer);
              ok <==> computed.Ok? && |store.rows| == |old(store.rows)| + |computed.value|
  {
    var book := ReadModel(store.rows);
    if !r.command.RecomputeAgreements? {
      var decided := Decide(book, r);
      if decided.Err? { return false; }
      ok := store.CreateEvents(decided.value.events);
      return ok && decided.value.answer.Ok?;
    }
    var computed := Recompute(book, r.listing, r.world, r.command.attribute, r.command.consumer);
    if computed.Err? { return false; }
    var events, i := computed.value, 0;
    assert events[0..] == events;
    ok := true;
    while i < |events|
      invariant 0 <= i <= |events|
      invariant ok && |store.rows| == |old(store.rows)| + i
      invariant InsertEach(store.rows, events[i..]) == InsertEach(old(store.rows), events)
    {
      InsertOne(store.rows, events[i]);
      assert events[i..][1..] == events[i + 1..];
      ok := store.CreateEvents([events[i]]);
      if !ok { return; }
      i := i + 1;
    }
  }
}
