/** The four writers together, and the coherence of the denormalised table over every run. */
module Platform {
  import opened Wrappers
  import opened Domain
  import opened Tables
  import opened Effects
  import opened PurposeWriter
  import opened AgreementWriter
  import opened CatalogWriter
  import opened AuthorizationWriter

  datatype Message =
    | OnPurpose(purposeMessage: PurposeMessage)
    | OnAgreement(agreementMessage: AgreementMessage)
    | OnCatalog(catalogMessage: CatalogMessage)
    | OnClient(clientMessage: ClientMessage)

  function PlanFor(s: Rows, m: Message): Result<Plan, WriterError> {
    match m
    case OnPurpose(pm) => PurposeWriter.PlanOf(s, pm)
    case OnAgreement(am) => AgreementWriter.PlanOf(s, am)
    case OnCatalog(cm) => CatalogWriter.PlanOf(s, cm)
    case OnClient(cm) => AuthorizationWriter.PlanOf(s, cm)
  }

  /** One handled message; a handler that throws does so before its first write. */
  function Handle(s: Store, m: Message): Store {
    match PlanFor(s.rows, m)
    case Ok(p) => Run(s, p)
    case Err(_) => s
  }

  /** A run: messages of all topics in the order in which the consumers happen to take them. */
  function RunFrom(s: Store, ms: seq<Message>): Store {
    if ms == [] then s else Handle(RunFrom(s, ms[..|ms| - 1]), ms[|ms| - 1])
  }
}

module Coherence {
  import opened Wrappers
  import opened Domain
  import opened Tables
  import opened Effects
  import opened PurposeWriter
  import opened AgreementWriter
  import opened CatalogWriter
  import opened AuthorizationWriter
  import opened Platform

  /** Facts of the event store that the writers rely on: where a purpose belongs, and which message
      published a descriptor. */
  datatype Journal = Journal(home: PurposeId -> AgreementKey, publication: DescriptorKey -> CatalogMessage)

  function MessageKey(m: CatalogMessage): DescriptorKey {
    DescriptorKey(m.eservice.id, m.descriptor)
  }

  predicate PurposeAdmissible(j: Journal, m: PurposeMessage) {
    && AgreementKey(m.purpose.consumer, m.purpose.eservice) == j.home(m.purpose.id)
    && (m.kind.PurposeArchival? ==> PurposeState(m.purpose.versions) == INACTIVE)
  }

  predicate CatalogAdmissible(j: Journal, m: CatalogMessage) {
    && (forall d :: d in m.eservice.descriptors ==> d.voucherLifespan > 0)
    && (m.kind.DescriptorPublication? ==> m == j.publication(MessageKey(m)))
    && (m.kind.DescriptorStateChange? || m.kind.QuotasUpdate? ==> m.version != j.publication(MessageKey(m)).version)
  }

  predicate ClientAdmissible(j: Journal, m: ClientMessage) {
    && (forall p :: p in m.client.purposes ==> j.home(p).consumer == m.client.consumer)
    && (m.kind.ClientPurposeAdded? ==> j.home(m.kind.purpose).consumer == m.client.consumer)
  }

  /** What the event store guarantees of a delivered message.  Nothing is asked of the order of
      delivery or of repetition. */
  predicate Admissible(j: Journal, m: Message) {
    match m
    case OnPurpose(pm) => PurposeAdmissible(j, pm)
    case OnAgreement(_) => true
    case OnCatalog(cm) => CatalogAdmissible(j, cm)
    case OnClient(cm) => ClientAdmissible(j, cm)
  }

  /* ---- the invariant ---- */

  /** The purpose columns show the purpose row; without a row they do not say ACTIVE. */
  predicate PurposeColumns(s: Rows, p: PurposeId, e: TokenEntry)
    requires e.ConsumerEntry?
  {
    if p in s.purposes then
      var row := s.purposes[p];
      e.purposeState == Some(row.state) && e.purposeVersionId == Some(row.versionId)
      && e.agreementKey == Some(AgreementKey(row.consumer, row.eservice))
    else e.purposeState != Some(ACTIVE)
  }

  /** The agreement columns show the agreement row that the entry's own key names. */
  predicate AgreementColumns(s: Rows, e: TokenEntry)
    requires e.ConsumerEntry?
  {
    if e.agreementKey.Some? && e.agreementKey.value in s.agreements then
      var row := s.agreements[e.agreementKey.value];
      e.agreementId == Some(row.agreementId) && e.agreementState == Some(row.state)
      && e.descriptorKey == Some(DescriptorKey(e.agreementKey.value.eservice, row.descriptor))
    else e.agreementId.None? && e.agreementState.None? && e.descriptorKey.None?
  }

  /** The descriptor columns show the catalog row that the entry's own key names, if there is one. */
  predicate DescriptorColumns(s: Rows, e: TokenEntry)
    requires e.ConsumerEntry?
  {
    e.descriptorKey.Some? && e.descriptorKey.value in s.descriptors ==>
      var row := s.descriptors[e.descriptorKey.value];
      e.descriptorState == Some(row.state) && e.audience == Some(row.audience) && e.lifespan == Some(row.lifespan)
  }

  predicate EntryCoherent(j: Journal, s: Rows, pk: TokenKey, e: TokenEntry) {
    e.ConsumerEntry? ==>
      if pk.ClientKid? then e == PartialEntry(e.consumer, e.publicKey)
      else
        && (e.agreementKey.Some? ==> e.agreementKey.value == j.home(pk.purpose))
        && PurposeColumns(s, pk.purpose, e)
        && AgreementColumns(s, e)
        && DescriptorColumns(s, e)
  }

  predicate PurposeRowCoherent(j: Journal, p: PurposeId, row: PurposeRow) {
    AgreementKey(row.consumer, row.eservice) == j.home(p)
  }

  /** A catalog row keeps the audience of its publication, and its lifespan until a later message. */
  predicate CatalogRowCoherent(j: Journal, d: DescriptorKey, row: CatalogRow) {
    var m := j.publication(d);
    var published := FindDescriptor(m.eservice.descriptors, d.descriptor);
    && row.lifespan > 0
    && published.Some?
    && row.audience == published.value.audience
    && row.version >= m.version
    && (row.version == m.version ==> row.lifespan == published.value.voucherLifespan)
  }

  predicate RowsCoherent(j: Journal, s: Rows) {
    && (forall p :: p in s.purposes ==> PurposeRowCoherent(j, p, s.purposes[p]))
    && (forall d :: d in s.descriptors ==> CatalogRowCoherent(j, d, s.descriptors[d]))
  }

  predicate EntriesCoherent(j: Journal, s: Store) {
    forall pk :: pk in s.tokens ==> EntryCoherent(j, s.rows, pk, s.tokens[pk])
  }

  predicate Coherent(j: Journal, s: Store) {
    RowsCoherent(j, s.rows) && EntriesCoherent(j, s)
  }

  /* ---- every message keeps it: one entry under a row write and its propagation ---- */

  lemma PurposeUpdateKeepsEntry(j: Journal, s: Rows, p: PurposeId, row: PurposeRow, pk: TokenKey, e: TokenEntry)
    requires EntryCoherent(j, s, pk, e)
    requires p in s.purposes && row.consumer == s.purposes[p].consumer && row.eservice == s.purposes[p].eservice
    ensures EntryCoherent(j, OnRows(s, PutPurpose(p, row)), pk,
                          PatchedAt(PurposePatch(p, row.state, row.versionId), pk, e))
  {
  }

  lemma PurposeJoinKeepsEntry(j: Journal, s: Rows, m: PurposeMessage, row: PurposeRow, pk: TokenKey, e: TokenEntry)
    requires EntryCoherent(j, s, pk, e) && PurposeAdmissible(j, m)
    requires PurposeRowCoherent(j, m.purpose.id, row) && row.state == PurposeState(m.purpose.versions)
    ensures EntryCoherent(j, OnRows(s, PutPurpose(m.purpose.id, row)), pk,
                          PatchedAt(JoinPatch(s, m, row.versionId), pk, e))
  {
  }

  lemma PurposeArchivalKeepsEntry(j: Journal, s: Rows, p: PurposeId, v: PurposeVersionId, pk: TokenKey, e: TokenEntry)
    requires EntryCoherent(j, s, pk, e)
    ensures EntryCoherent(j, OnRows(s, DropPurpose(p)), pk, PatchedAt(PurposePatch(p, INACTIVE, v), pk, e))
  {
  }

  lemma AgreementUpsertKeepsEntry(j: Journal, s: Rows, m: AgreementMessage, timestamp: int, pk: TokenKey, e: TokenEntry)
    requires EntryCoherent(j, s, pk, e)
    ensures EntryCoherent(j, OnRows(s, LatestPlan(s, m, timestamp).first), pk,
                          PatchedAt(LatestPlan(s, m, timestamp).second.patch, pk, e))
  {
  }

  lemma AgreementStateKeepsEntry(j: Journal, s: Rows, k: AgreementKey, row: AgreementRow, pk: TokenKey, e: TokenEntry)
    requires EntryCoherent(j, s, pk, e)
    requires k in s.agreements && row.agreementId == s.agreements[k].agreementId
             && row.descriptor == s.agreements[k].descriptor
    ensures EntryCoherent(j, OnRows(s, PutAgreement(k, row)), pk, PatchedAt(AgreementStatePatch(k, row.state), pk, e))
  {
  }

  lemma DescriptorInfoKeepsEntry(j: Journal, s: Rows, d: DescriptorKey, row: CatalogRow, pk: TokenKey, e: TokenEntry)
    requires EntryCoherent(j, s, pk, e)
    ensures EntryCoherent(j, OnRows(s, PutDescriptor(d, row)), pk,
                          PatchedAt(DescriptorInfoPatch(d, row.state, row.lifespan, row.audience), pk, e))
  {
  }

  lemma DescriptorStateKeepsEntry(j: Journal, s: Rows, d: DescriptorKey, row: CatalogRow, pk: TokenKey, e: TokenEntry)
    requires EntryCoherent(j, s, pk, e)
    requires d in s.descriptors && row.audience == s.descriptors[d].audience
             && row.lifespan == s.descriptors[d].lifespan
    ensures EntryCoherent(j, OnRows(s, PutDescriptor(d, row)), pk, PatchedAt(DescriptorStatePatch(d, row.state), pk, e))
  {
  }

  lemma LifespanKeepsEntry(j: Journal, s: Rows, d: DescriptorKey, row: CatalogRow, pk: TokenKey, e: TokenEntry)
    requires EntryCoherent(j, s, pk, e)
    requires d in s.descriptors && row.audience == s.descriptors[d].audience && row.state == s.descriptors[d].state
    ensures EntryCoherent(j, OnRows(s, PutDescriptor(d, row)), pk, PatchedAt(LifespanPatch(d, row.lifespan), pk, e))
  {
  }

  lemma DescriptorDropKeepsEntry(j: Journal, s: Rows, d: DescriptorKey, state: ItemState, pk: TokenKey, e: TokenEntry)
    requires EntryCoherent(j, s, pk, e)
    ensures EntryCoherent(j, OnRows(s, DropDescriptor(d)), pk, PatchedAt(DescriptorStatePatch(d, state), pk, e))
  {
  }

  /** A new entry shows the rows as they are, and the recheck finds nothing to repair. */
  lemma JoinedEntryCoherent(j: Journal, s: Rows, consumer: TenantId, pem: string, pk: TokenKey)
    requires RowsCoherent(j, s) && pk.ClientKidPurpose? && j.home(pk.purpose).consumer == consumer
    ensures EntryCoherent(j, s, pk, JoinedEntry(s, consumer, pem, pk.purpose))
    ensures JoinedEntry(s, consumer, pem, pk.purpose) == Stored(NewEntry(consumer, pem, Retrieve(s, pk.purpose)))
  {
    if pk.purpose in s.purposes {
      assert PurposeRowCoherent(j, pk.purpose, s.purposes[pk.purpose]);
      var r := Retrieve(s, pk.purpose);
      if r.catalog.Some? {
        assert CatalogRowCoherent(j, DescriptorKey(r.purpose.value.eservice, r.agreement.value.descriptor),
                                  r.catalog.value);
      }
    }
  }

  /* ---- whole messages ---- */

  function RowThenPatch(s: Store, f: Effect, patch: Patch): Store {
    Run(s, Plan(f, PatchTokens(patch), Nothing, Nothing))
  }

  /** A row write followed by its propagation is coherent once it is so entry by entry. */
  lemma PropagationKeepsCoherence(j: Journal, s: Store, f: Effect, patch: Patch)
    requires !f.PutTokens? && !f.DropTokens? && !f.PatchTokens?
    requires RowsCoherent(j, OnRows(s.rows, f))
    requires forall pk :: pk in s.tokens ==> EntryCoherent(j, OnRows(s.rows, f), pk, PatchedAt(patch, pk, s.tokens[pk]))
    ensures Coherent(j, RowThenPatch(s, f, patch))
  {
    assert RowThenPatch(s, f, patch) == Store(OnRows(s.rows, f), PatchAll(patch, s.tokens));
  }

  lemma PurposeUpdateKeepsCoherence(j: Journal, s: Store, p: PurposeId, row: PurposeRow)
    requires Coherent(j, s)
    requires p in s.rows.purposes && row.consumer == s.rows.purposes[p].consumer
             && row.eservice == s.rows.purposes[p].eservice
    ensures Coherent(j, RowThenPatch(s, PutPurpose(p, row), PurposePatch(p, row.state, row.versionId)))
  {
    var f, patch := PutPurpose(p, row), PurposePatch(p, row.state, row.versionId);
    forall pk | pk in s.tokens
      ensures EntryCoherent(j, OnRows(s.rows, f), pk, PatchedAt(patch, pk, s.tokens[pk]))
    {
      PurposeUpdateKeepsEntry(j, s.rows, p, row, pk, s.tokens[pk]);
    }
    assert PurposeRowCoherent(j, p, s.rows.purposes[p]);
    PropagationKeepsCoherence(j, s, f, patch);
  }

  lemma PurposeJoinKeepsCoherence(j: Journal, s: Store, m: PurposeMessage, row: PurposeRow)
    requires Coherent(j, s) && PurposeAdmissible(j, m)
    requires PurposeRowCoherent(j, m.purpose.id, row) && row.state == PurposeState(m.purpose.versions)
    ensures Coherent(j, RowThenPatch(s, PutPurpose(m.purpose.id, row), JoinPatch(s.rows, m, row.versionId)))
  {
    var f, patch := PutPurpose(m.purpose.id, row), JoinPatch(s.rows, m, row.versionId);
    forall pk | pk in s.tokens
      ensures EntryCoherent(j, OnRows(s.rows, f), pk, PatchedAt(patch, pk, s.tokens[pk]))
    {
      PurposeJoinKeepsEntry(j, s.rows, m, row, pk, s.tokens[pk]);
    }
    PropagationKeepsCoherence(j, s, f, patch);
  }

  lemma PurposeArchivalKeepsCoherence(j: Journal, s: Store, p: PurposeId, v: PurposeVersionId)
    requires Coherent(j, s)
    ensures Coherent(j, RowThenPatch(s, DropPurpose(p), PurposePatch(p, INACTIVE, v)))
  {
    forall pk | pk in s.tokens
      ensures EntryCoherent(j, OnRows(s.rows, DropPurpose(p)), pk,
                            PatchedAt(PurposePatch(p, INACTIVE, v), pk, s.tokens[pk]))
    {
      PurposeArchivalKeepsEntry(j, s.rows, p, v, pk, s.tokens[pk]);
    }
    PropagationKeepsCoherence(j, s, DropPurpose(p), PurposePatch(p, INACTIVE, v));
  }

  lemma PurposeMessageKeepsCoherence(j: Journal, s: Store, m: PurposeMessage)
    requires Coherent(j, s) && PurposeAdmissible(j, m)
    ensures Coherent(j, Handle(s, OnPurpose(m)))
  {
    var plan := PurposeWriter.PlanOf(s.rows, m);
    if plan.Ok? && plan.value != SKIP {
      var f, p := plan.value.first, m.purpose.id;
      if p in s.rows.purposes {
        assert PurposeRowCoherent(j, p, s.rows.purposes[p]);
      }
      match m.kind
      case PurposeActivation => PurposeJoinKeepsCoherence(j, s, m, f.purposeRow);
      case VersionChange => PurposeUpdateKeepsCoherence(j, s, p, f.purposeRow);
      case PurposeArchival => PurposeArchivalKeepsCoherence(j, s, p, m.versionId);
      case OtherPurposeEvent =>
    }
  }

  lemma AgreementUpsertKeepsCoherence(j: Journal, s: Store, m: AgreementMessage, timestamp: int)
    requires Coherent(j, s)
    ensures Coherent(j, Run(s, LatestPlan(s.rows, m, timestamp)))
  {
    var plan := LatestPlan(s.rows, m, timestamp);
    forall pk | pk in s.tokens
      ensures EntryCoherent(j, OnRows(s.rows, plan.first), pk, PatchedAt(plan.second.patch, pk, s.tokens[pk]))
    {
      AgreementUpsertKeepsEntry(j, s.rows, m, timestamp, pk, s.tokens[pk]);
    }
    PropagationKeepsCoherence(j, s, plan.first, plan.second.patch);
  }

  lemma AgreementStateKeepsCoherence(j: Journal, s: Store, k: AgreementKey, row: AgreementRow)
    requires Coherent(j, s)
    requires k in s.rows.agreements && row.agreementId == s.rows.agreements[k].agreementId
             && row.descriptor == s.rows.agreements[k].descriptor
    ensures Coherent(j, RowThenPatch(s, PutAgreement(k, row), AgreementStatePatch(k, row.state)))
  {
    var f, patch := PutAgreement(k, row), AgreementStatePatch(k, row.state);
    forall pk | pk in s.tokens
      ensures EntryCoherent(j, OnRows(s.rows, f), pk, PatchedAt(patch, pk, s.tokens[pk]))
    {
      AgreementStateKeepsEntry(j, s.rows, k, row, pk, s.tokens[pk]);
    }
    PropagationKeepsCoherence(j, s, f, patch);
  }

  lemma AgreementMessageKeepsCoherence(j: Journal, s: Store, m: AgreementMessage)
    requires Coherent(j, s)
    ensures Coherent(j, Handle(s, OnAgreement(m)))
  {
    var plan := AgreementWriter.PlanOf(s.rows, m);
    if plan.Ok? && plan.value != SKIP {
      var k := KeyOf(m.agreement);
      match m.kind
      case AgreementActivation => AgreementUpsertKeepsCoherence(j, s, m, m.agreement.stamps.activation.value.when);
      case AgreementUpgrade => AgreementUpsertKeepsCoherence(j, s, m, m.agreement.stamps.upgrade.value.when);
      case SuspensionChange => AgreementStateKeepsCoherence(j, s, k, plan.value.first.agreementRow);
      case ConsumerArchival => AgreementStateKeepsCoherence(j, s, k, plan.value.second.agreementRow);
      case OtherAgreementEvent =>
    }
  }

  lemma DescriptorInfoKeepsCoherence(j: Journal, s: Store, d: DescriptorKey, row: CatalogRow)
    requires Coherent(j, s) && CatalogRowCoherent(j, d, row)
    ensures Coherent(j, RowThenPatch(s, PutDescriptor(d, row),
                                     DescriptorInfoPatch(d, row.state, row.lifespan, row.audience)))
  {
    var f, patch := PutDescriptor(d, row), DescriptorInfoPatch(d, row.state, row.lifespan, row.audience);
    forall pk | pk in s.tokens
      ensures EntryCoherent(j, OnRows(s.rows, f), pk, PatchedAt(patch, pk, s.tokens[pk]))
    {
      DescriptorInfoKeepsEntry(j, s.rows, d, row, pk, s.tokens[pk]);
    }
    PropagationKeepsCoherence(j, s, f, patch);
  }

  lemma DescriptorStateKeepsCoherence(j: Journal, s: Store, d: DescriptorKey, row: CatalogRow)
    requires Coherent(j, s) && CatalogRowCoherent(j, d, row)
    requires d in s.rows.descriptors && row.audience == s.rows.descriptors[d].audience
             && row.lifespan == s.rows.descriptors[d].lifespan
    ensures Coherent(j, RowThenPatch(s, PutDescriptor(d, row), DescriptorStatePatch(d, row.state)))
  {
    var f, patch := PutDescriptor(d, row), DescriptorStatePatch(d, row.state);
    forall pk | pk in s.tokens
      ensures EntryCoherent(j, OnRows(s.rows, f), pk, PatchedAt(patch, pk, s.tokens[pk]))
    {
      DescriptorStateKeepsEntry(j, s.rows, d, row, pk, s.tokens[pk]);
    }
    PropagationKeepsCoherence(j, s, f, patch);
  }

  lemma LifespanKeepsCoherence(j: Journal, s: Store, d: DescriptorKey, row: CatalogRow)
    requires Coherent(j, s) && CatalogRowCoherent(j, d, row)
    requires d in s.rows.descriptors && row.audience == s.rows.descriptors[d].audience
             && row.state == s.rows.descriptors[d].state
    ensures Coherent(j, RowThenPatch(s, PutDescriptor(d, row), LifespanPatch(d, row.lifespan)))
  {
    var f, patch := PutDescriptor(d, row), LifespanPatch(d, row.lifespan);
    forall pk | pk in s.tokens
      ensures EntryCoherent(j, OnRows(s.rows, f), pk, PatchedAt(patch, pk, s.tokens[pk]))
    {
      LifespanKeepsEntry(j, s.rows, d, row, pk, s.tokens[pk]);
    }
    PropagationKeepsCoherence(j, s, f, patch);
  }

  lemma DescriptorDropKeepsCoherence(j: Journal, s: Store, d: DescriptorKey, state: ItemState)
    requires Coherent(j, s)
    ensures Coherent(j, RowThenPatch(s, DropDescriptor(d), DescriptorStatePatch(d, state)))
  {
    forall pk | pk in s.tokens
      ensures EntryCoherent(j, OnRows(s.rows, DropDescriptor(d)), pk,
                            PatchedAt(DescriptorStatePatch(d, state), pk, s.tokens[pk]))
    {
      DescriptorDropKeepsEntry(j, s.rows, d, state, pk, s.tokens[pk]);
    }
    PropagationKeepsCoherence(j, s, DropDescriptor(d), DescriptorStatePatch(d, state));
  }

  lemma CatalogMessageKeepsCoherence(j: Journal, s: Store, m: CatalogMessage)
    requires Coherent(j, s) && CatalogAdmissible(j, m)
    ensures Coherent(j, Handle(s, OnCatalog(m)))
  {
    var plan, k := CatalogWriter.PlanOf(s.rows, m), MessageKey(m);
    if plan.Ok? && plan.value != SKIP {
      var d := FindDescriptor(m.eservice.descriptors, m.descriptor).value;
      assert k in s.rows.descriptors ==> CatalogRowCoherent(j, k, s.rows.descriptors[k]);
      match m.kind
      case DescriptorStateChange => DescriptorStateKeepsCoherence(j, s, k, plan.value.first.catalogRow);
      case QuotasUpdate => LifespanKeepsCoherence(j, s, k, plan.value.first.catalogRow);
      case DescriptorArchival => DescriptorDropKeepsCoherence(j, s, k, DescriptorItemState(d.state));
      case DescriptorPublication =>
        var f, g := CurrentPlan(s.rows, m, d), PreviousPlan(m, d);
        if f.0 != Nothing {
          DescriptorInfoKeepsCoherence(j, s, k, f.0.catalogRow);
        }
        if g.0 != Nothing {
          DescriptorDropKeepsCoherence(j, Apply(Apply(s, f.0), f.1), g.0.descriptor, g.1.patch.state);
        }
      case OtherCatalogEvent =>
    }
  }

  predicate PutsCoherent(j: Journal, s: Rows, f: Effect) {
    f.PutTokens? ==> forall pk :: pk in f.entries ==> EntryCoherent(j, s, pk, f.entries[pk])
  }

  predicate IsClientEffect(f: Effect) {
    f.Nothing? || f.PutClient? || f.DropClient? || f.PutTokens? || f.DropTokens?
  }

  lemma ClientEffectKeepsCoherence(j: Journal, s: Store, f: Effect)
    requires Coherent(j, s) && PutsCoherent(j, s.rows, f) && IsClientEffect(f)
    ensures Coherent(j, Apply(s, f))
    ensures forall g :: PutsCoherent(j, s.rows, g) ==> PutsCoherent(j, Apply(s, f).rows, g)
  {
    var s1 := Apply(s, f);
    assert s1.rows.(clients := s.rows.clients) == s.rows;
    forall pk, e | EntryCoherent(j, s.rows, pk, e)
      ensures EntryCoherent(j, s1.rows, pk, e)
    {
    }
  }

  lemma KeyEntriesCoherent(j: Journal, s: Rows, client: Client, kid: string, pem: string, ps: set<PurposeId>)
    requires RowsCoherent(j, s) && forall p :: p in ps ==> j.home(p).consumer == client.consumer
    ensures PutsCoherent(j, s, PutTokens(KeyEntries(s, client, kid, pem, ps)))
    ensures PutsCoherent(j, s, PutTokens(RecheckedKeyEntries(s, client, kid, pem, ps)))
  {
    forall pk | pk in KeyEntries(s, client, kid, pem, ps)
      ensures EntryCoherent(j, s, pk, KeyEntries(s, client, kid, pem, ps)[pk])
      ensures EntryCoherent(j, s, pk, RecheckedKeyEntries(s, client, kid, pem, ps)[pk])
    {
      JoinedEntryCoherent(j, s, client.consumer, pem, pk);
    }
  }

  lemma PurposeEntriesCoherent(j: Journal, s: Rows, client: Client, p: PurposeId, kids: set<string>)
    requires RowsCoherent(j, s) && j.home(p).consumer == client.consumer && kids <= Kids(client.keys)
    ensures PutsCoherent(j, s, PutTokens(PurposeEntries(s, client, p, kids)))
    ensures PutsCoherent(j, s, PutTokens(RecheckedPurposeEntries(s, client, p, kids)))
  {
    forall pk | pk in PurposeEntries(s, client, p, kids)
      ensures EntryCoherent(j, s, pk, PurposeEntries(s, client, p, kids)[pk])
      ensures EntryCoherent(j, s, pk, RecheckedPurposeEntries(s, client, p, kids)[pk])
    {
      JoinedEntryCoherent(j, s, client.consumer, LastPem(client.keys, pk.kid), pk);
    }
  }

  lemma ClientMessageKeepsCoherence(j: Journal, s: Store, m: ClientMessage)
    requires Coherent(j, s) && ClientAdmissible(j, m)
    ensures Coherent(j, Handle(s, OnClient(m)))
  {
    var plan := AuthorizationWriter.PlanOf(s.rows, m);
    if plan.Ok? {
      if m.kind.ClientKeyAdded? {
        KeyEntriesCoherent(j, s.rows, m.client, m.kind.kid, FirstPem(m.client.keys, m.kind.kid).value,
                           PurposeSet(m.client.purposes));
      } else if m.kind.ClientPurposeAdded? {
        PurposeEntriesCoherent(j, s.rows, m.client, m.kind.purpose, Kids(m.client.keys));
      }
      var s1 := Apply(s, plan.value.first);
      var s2 := Apply(s1, plan.value.second);
      var s3 := Apply(s2, plan.value.third);
      ClientEffectKeepsCoherence(j, s, plan.value.first);
      ClientEffectKeepsCoherence(j, s1, plan.value.second);
      ClientEffectKeepsCoherence(j, s2, plan.value.third);
      ClientEffectKeepsCoherence(j, s3, plan.value.fourth);
    }
  }

  /** View coherence: after any run, in any interleaving of the four topics and with any repetition,
      every entry agrees with each platform row that its own keys name. */
  lemma {:induction false} ViewCoherence(j: Journal, s: Store, ms: seq<Message>)
    requires Coherent(j, s)
    requires forall m :: m in ms ==> Admissible(j, m)
    ensures Coherent(j, RunFrom(s, ms))
  {
    if ms != [] {
      var before, m := ms[..|ms| - 1], ms[|ms| - 1];
      ViewCoherence(j, s, before);
      assert m in ms && Admissible(j, m);
      match m
      case OnPurpose(pm) => PurposeMessageKeepsCoherence(j, RunFrom(s, before), pm);
      case OnAgreement(am) => AgreementMessageKeepsCoherence(j, RunFrom(s, before), am);
      case OnCatalog(cm) => CatalogMessageKeepsCoherence(j, RunFrom(s, before), cm);
      case OnClient(cm) => ClientMessageKeepsCoherence(j, RunFrom(s, before), cm);
    }
  }
}
