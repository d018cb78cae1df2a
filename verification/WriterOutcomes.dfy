/** What each message makes of the tables, told from the message and the tables alone: rows, and one
    entry of token-generation-states. */
module WriterOutcomes {
  import opened Wrappers
  import opened Domain
  import opened Tables
  import opened Effects
  import opened PurposeWriter
  import opened AgreementWriter
  import opened CatalogWriter
  import opened AuthorizationWriter
  import opened Platform
  import opened PlatformTruth
  import opened AgreementConfluence
  import Gate

  function StateIf(active: bool): ItemState {
    if active then ACTIVE else INACTIVE
  }

  predicate SomeActive(m: PurposeMessage) {
    exists v :: v in m.purpose.versions && v.state == ActiveVersion
  }

  /* ---- purposes ---- */

  predicate OutdatedPurpose(s: Store, m: PurposeMessage) {
    m.purpose.id in s.rows.purposes && s.rows.purposes[m.purpose.id].version > m.version
  }

  predicate IsOfPurpose(pk: TokenKey, p: PurposeId) {
    pk.ClientKidPurpose? && pk.purpose == p
  }

  /** The handler fails exactly on an activation without a live version; a message that is older than the
      row, or changes a purpose without row, does nothing. */
  lemma PurposeMessageIgnored(s: Store, m: PurposeMessage)
    ensures PlanFor(s.rows, OnPurpose(m)).Err? <==>
              m.kind.PurposeActivation?
              && forall v :: v in m.purpose.versions ==> v.state !in {ActiveVersion, SuspendedVersion}
    ensures PlanFor(s.rows, OnPurpose(m)).Err? || m.kind.OtherPurposeEvent?
            || (OutdatedPurpose(s, m) && !m.kind.PurposeArchival?)
            || (m.kind.VersionChange? && m.purpose.id !in s.rows.purposes) ==>
              Handle(s, OnPurpose(m)) == s
  {
    LiveVersionIsFirst(m.purpose.versions);
  }

  lemma PurposeActivated(s: Store, m: PurposeMessage, i: nat)
    requires m.kind.PurposeActivation? && FirstLive(m.purpose.versions, i) && !OutdatedPurpose(s, m)
    ensures var p, home := m.purpose, AgreementKey(m.purpose.consumer, m.purpose.eservice);
            var t, state, version := Handle(s, OnPurpose(m)), StateIf(SomeActive(m)), m.purpose.versions[i].id;
            && t.rows == s.rows.(purposes := s.rows.purposes[p.id :=
                 if p.id in s.rows.purposes
                 then s.rows.purposes[p.id].(state := state, versionId := version, version := m.version)
                 else PurposeRow(state, version, p.eservice, p.consumer, m.version)])
            && t.tokens.Keys == s.tokens.Keys
            && forall pk :: pk in s.tokens ==>
                 if !IsOfPurpose(pk, p.id) || s.tokens[pk].ApiEntry? then t.tokens[pk] == s.tokens[pk]
                 else
                   var e, e1 := s.tokens[pk], t.tokens[pk];
                   && e1.ConsumerEntry? && e1.consumer == e.consumer && e1.publicKey == e.publicKey
                   && e1.purposeState == Some(state) && e1.purposeVersionId == Some(version)
                   && e1.agreementKey == Some(home)
  {
    LiveVersionIsFirst(m.purpose.versions);
  }

  /** What a change of version or the archival makes of an entry. */
  predicate PurposeShown(s: Store, t: Store, m: PurposeMessage) {
    && t.tokens.Keys == s.tokens.Keys
    && forall pk :: pk in s.tokens ==>
         t.tokens[pk] == if !IsOfPurpose(pk, m.purpose.id) || s.tokens[pk].ApiEntry? then s.tokens[pk]
                         else s.tokens[pk].(purposeState := Some(StateIf(SomeActive(m))),
                                            purposeVersionId := Some(m.versionId))
  }

  lemma PurposeVersionChanged(s: Store, m: PurposeMessage)
    requires m.kind.VersionChange? && m.purpose.id in s.rows.purposes && !OutdatedPurpose(s, m)
    ensures var p, t := m.purpose.id, Handle(s, OnPurpose(m));
            && t.rows == s.rows.(purposes := s.rows.purposes[p := s.rows.purposes[p].(
                 state := StateIf(SomeActive(m)), versionId := m.versionId, version := m.version)])
            && PurposeShown(s, t, m)
  {
  }

  lemma PurposeArchived(s: Store, m: PurposeMessage)
    requires m.kind.PurposeArchival?
    ensures var t := Handle(s, OnPurpose(m));
            t.rows == s.rows.(purposes := s.rows.purposes - {m.purpose.id}) && PurposeShown(s, t, m)
  {
  }

  /* ---- agreements ---- */

  /** The message is older than the row of its own agreement, or its agreement than that of the row. */
  predicate OutdatedAgreement(s: Store, m: AgreementMessage, t: int) {
    var k := AgreementKey(m.agreement.consumer, m.agreement.eservice);
    k in s.rows.agreements
    && var row := s.rows.agreements[k];
       row.timestamp > t || (row.agreementId == m.agreement.id && row.version > m.version)
  }

  /** What an activation or upgrade dated `t` makes of the tables. */
  predicate Raises(s: Store, m: AgreementMessage, t: int, s1: Store) {
    var a := m.agreement;
    var k, d := AgreementKey(a.consumer, a.eservice), DescriptorKey(a.eservice, a.descriptor);
    var state := StateIf(a.state == Active);
    && s1.rows == s.rows.(agreements := s.rows.agreements[k := AgreementRow(state, a.id, t, a.descriptor, m.version)])
    && s1.tokens.Keys == s.tokens.Keys
    && forall pk :: pk in s.tokens ==>
         var e, e1 := s.tokens[pk], s1.tokens[pk];
         if e.ApiEntry? || e.agreementKey != Some(k) then e1 == e
         else
           var moved := e.(agreementId := Some(a.id), agreementState := Some(state), descriptorKey := Some(d));
           e1 == if d !in s.rows.descriptors then moved
                 else moved.(descriptorState := Some(s.rows.descriptors[d].state),
                             audience := Some(s.rows.descriptors[d].audience),
                             lifespan := Some(s.rows.descriptors[d].lifespan))
  }

  lemma AgreementRaised(s: Store, m: AgreementMessage)
    requires m.kind.AgreementActivation? || m.kind.AgreementUpgrade?
    ensures var stamps := m.agreement.stamps;
            var stamp := if m.kind.AgreementActivation? then stamps.activation else stamps.upgrade;
            var s1 := Handle(s, OnAgreement(m));
            && (PlanFor(s.rows, OnAgreement(m)).Err? <==> stamp.None?)
            && if stamp.Some? && !OutdatedAgreement(s, m, stamp.value.when)
                  && (m.kind.AgreementUpgrade? ==> m.agreement.state in {Active, Suspended})
               then Raises(s, m, stamp.value.when, s1) else s1 == s
  {
  }

  /** What a suspension or archival makes of them. */
  predicate Restates(s: Store, m: AgreementMessage, s1: Store) {
    var k := AgreementKey(m.agreement.consumer, m.agreement.eservice);
    var state := StateIf(m.agreement.state == Active);
    && k in s.rows.agreements
    && s1.rows == s.rows.(agreements :=
         s.rows.agreements[k := s.rows.agreements[k].(state := state, version := m.version)])
    && s1.tokens.Keys == s.tokens.Keys
    && forall pk :: pk in s.tokens ==>
         var e := s.tokens[pk];
         s1.tokens[pk] == if e.ApiEntry? || e.agreementKey != Some(k) then e else e.(agreementState := Some(state))
  }

  lemma AgreementRestated(s: Store, m: AgreementMessage, t: int)
    requires m.kind.SuspensionChange? && DatedAt(m.agreement, t)
    ensures var k, s1 := AgreementKey(m.agreement.consumer, m.agreement.eservice), Handle(s, OnAgreement(m));
            if k in s.rows.agreements && !OutdatedAgreement(s, m, t) then Restates(s, m, s1) else s1 == s
  {
  }

  lemma AgreementArchived(s: Store, m: AgreementMessage, t: int)
    requires m.kind.ConsumerArchival? && DatedAt(m.agreement, t)
    ensures var k, s1 := AgreementKey(m.agreement.consumer, m.agreement.eservice), Handle(s, OnAgreement(m));
            if k in s.rows.agreements && s.rows.agreements[k].agreementId == m.agreement.id
               && s.rows.agreements[k].timestamp <= t
            then Restates(s, m, s1) else s1 == s
  {
  }

  lemma OtherAgreementMessage(s: Store, m: AgreementMessage)
    requires m.kind.OtherAgreementEvent?
    ensures Handle(s, OnAgreement(m)) == s
  {
  }

  /** The agreement of the row is suspended or archived, by a message that is dated and numbered no earlier
      than the row: row and entries are INACTIVE, and the gate is shut on every entry of the agreement. */
  lemma SuspensionShutsTheGate(s: Store, m: AgreementMessage, t: int, pk: TokenKey)
    requires m.kind.SuspensionChange? || m.kind.ConsumerArchival?
    requires DatedAt(m.agreement, t) && m.agreement.state != Active
    requires var k := AgreementKey(m.agreement.consumer, m.agreement.eservice);
             && k in s.rows.agreements && s.rows.agreements[k].agreementId == m.agreement.id
             && s.rows.agreements[k].timestamp <= t && s.rows.agreements[k].version <= m.version
    ensures var k, s1 := AgreementKey(m.agreement.consumer, m.agreement.eservice), Handle(s, OnAgreement(m));
            && k in s1.rows.agreements && s1.rows.agreements[k].state == INACTIVE
            && s1.rows.agreements[k].agreementId == m.agreement.id
            && (pk in s1.tokens && s1.tokens[pk].ConsumerEntry? && s1.tokens[pk].agreementKey == Some(k) ==>
                  s1.tokens[pk].agreementState == Some(INACTIVE) && !Gate.Validate(s1.tokens[pk], true).Successful?)
  {
    if m.kind.SuspensionChange? {
      AgreementRestated(s, m, t);
    } else {
      AgreementArchived(s, m, t);
    }
    var s1 := Handle(s, OnAgreement(m));
    if pk in s1.tokens && s1.tokens[pk].ConsumerEntry? {
      Gate.ValidationIsExact(s1.tokens[pk], true);
    }
  }

  /** So it is for an agreement that an activation or upgrade has just put in the row, if it is suspended or
      archived with the stamps that it had. */
  lemma SuspensionFollowsRaise(s: Store, raising: AgreementMessage, m: AgreementMessage, pk: TokenKey)
    requires raising.kind.AgreementActivation? || raising.kind.AgreementUpgrade?
    requires m.kind.SuspensionChange? || m.kind.ConsumerArchival?
    requires m.agreement.(state := raising.agreement.state) == raising.agreement && m.agreement.state != Active
    requires raising.kind.AgreementActivation? ==> raising.agreement.stamps.upgrade.None?
    requires m.version >= raising.version && Handle(s, OnAgreement(raising)) != s
    ensures var k := AgreementKey(m.agreement.consumer, m.agreement.eservice);
            var s1 := Handle(Handle(s, OnAgreement(raising)), OnAgreement(m));
            && k in s1.rows.agreements && s1.rows.agreements[k].state == INACTIVE
            && s1.rows.agreements[k].agreementId == m.agreement.id
            && (pk in s1.tokens && s1.tokens[pk].ConsumerEntry? && s1.tokens[pk].agreementKey == Some(k) ==>
                  s1.tokens[pk].agreementState == Some(INACTIVE) && !Gate.Validate(s1.tokens[pk], true).Successful?)
  {
    var stamp := if raising.kind.AgreementActivation? then raising.agreement.stamps.activation
                 else raising.agreement.stamps.upgrade;
    AgreementRaised(s, raising);
    SuspensionShutsTheGate(Handle(s, OnAgreement(raising)), m, stamp.value.when, pk);
  }

  /* ---- descriptors ---- */

  function Serves(d: Descriptor): ItemState {
    StateIf(d.state in {Published, Deprecated})
  }

  predicate OutdatedCatalog(s: Store, m: CatalogMessage, d: DescriptorKey) {
    d in s.rows.descriptors && s.rows.descriptors[d].version > m.version
  }

  predicate About(m: CatalogMessage, d: Descriptor) {
    FindDescriptor(m.eservice.descriptors, m.descriptor) == Some(d)
  }

  /** Every entry of the descriptor `k` gets the state; the others stay. */
  predicate Propagates(s: Store, s1: Store, k: DescriptorKey, state: ItemState) {
    && s1.tokens.Keys == s.tokens.Keys
    && forall pk :: pk in s.tokens ==>
         s1.tokens[pk] == if s.tokens[pk].ConsumerEntry? && s.tokens[pk].descriptorKey == Some(k)
                          then s.tokens[pk].(descriptorState := Some(state)) else s.tokens[pk]
  }

  lemma CatalogMessageFails(s: Store, m: CatalogMessage)
    ensures PlanFor(s.rows, OnCatalog(m)).Err? <==>
              !m.kind.OtherCatalogEvent? && forall d :: d in m.eservice.descriptors ==> d.id != m.descriptor
    ensures PlanFor(s.rows, OnCatalog(m)).Err? || m.kind.OtherCatalogEvent? ==> Handle(s, OnCatalog(m)) == s
  {
  }

  lemma DescriptorStateChanged(s: Store, m: CatalogMessage, d: Descriptor)
    requires m.kind.DescriptorStateChange? && About(m, d)
    ensures var k, s1 := DescriptorKey(m.eservice.id, d.id), Handle(s, OnCatalog(m));
            if k !in s.rows.descriptors || OutdatedCatalog(s, m, k) then s1 == s
            else
              && s1.rows == s.rows.(descriptors :=
                   s.rows.descriptors[k := s.rows.descriptors[k].(state := Serves(d), version := m.version)])
              && Propagates(s, s1, k, Serves(d))
  {
  }

  lemma DescriptorArchived(s: Store, m: CatalogMessage, d: Descriptor)
    requires m.kind.DescriptorArchival? && About(m, d)
    ensures var k, s1 := DescriptorKey(m.eservice.id, d.id), Handle(s, OnCatalog(m));
            s1.rows == s.rows.(descriptors := s.rows.descriptors - {k}) && Propagates(s, s1, k, Serves(d))
  {
  }

  lemma QuotasUpdated(s: Store, m: CatalogMessage, d: Descriptor)
    requires m.kind.QuotasUpdate? && About(m, d)
    ensures var k, s1 := DescriptorKey(m.eservice.id, d.id), Handle(s, OnCatalog(m));
            if k !in s.rows.descriptors || OutdatedCatalog(s, m, k)
               || s.rows.descriptors[k].lifespan == d.voucherLifespan
            then s1 == s
            else
              && s1.rows == s.rows.(descriptors := s.rows.descriptors[k := s.rows.descriptors[k].(
                   lifespan := d.voucherLifespan, version := m.version)])
              && s1.tokens.Keys == s.tokens.Keys
              && forall pk :: pk in s.tokens ==>
                   s1.tokens[pk] == if s.tokens[pk].ConsumerEntry? && s.tokens[pk].descriptorKey == Some(k)
                                    then s.tokens[pk].(lifespan := Some(d.voucherLifespan)) else s.tokens[pk]
  {
  }

  /** The descriptor with the version before, if it is archived: it is cleaned up. */
  predicate Retired(m: CatalogMessage, d: Descriptor, previous: Descriptor) {
    FindVersion(m.eservice.descriptors, d.version - 1) == Some(previous) && previous.state == ArchivedDescriptor
  }

  lemma DescriptorPublished(s: Store, m: CatalogMessage, d: Descriptor)
    requires m.kind.DescriptorPublication? && About(m, d)
    requires forall previous :: Retired(m, d, previous) ==> previous.id != d.id
    ensures var k, s1 := DescriptorKey(m.eservice.id, d.id), Handle(s, OnCatalog(m));
            && Lookup(s1.rows.descriptors, k)
               == (if OutdatedCatalog(s, m, k) then Some(s.rows.descriptors[k])
                   else if k in s.rows.descriptors
                   then Some(s.rows.descriptors[k].(state := Serves(d), version := m.version))
                   else Some(CatalogRow(Serves(d), d.audience, d.voucherLifespan, m.version)))
            && s1.tokens.Keys == s.tokens.Keys
            && forall pk :: pk in s.tokens && s.tokens[pk].ConsumerEntry? && s.tokens[pk].descriptorKey == Some(k) ==>
                 s1.tokens[pk] == if OutdatedCatalog(s, m, k) then s.tokens[pk]
                                  else s.tokens[pk].(descriptorState := Some(Serves(d)), audience := Some(d.audience),
                                                     lifespan := Some(d.voucherLifespan))
  {
  }

  /** The publication cleans up `k`. */
  predicate CleansUp(m: CatalogMessage, d: Descriptor, k: DescriptorKey) {
    var previous := FindVersion(m.eservice.descriptors, d.version - 1);
    previous.Some? && Retired(m, d, previous.value) && k == DescriptorKey(m.eservice.id, previous.value.id)
  }

  lemma RowsAfterPublication(s: Store, m: CatalogMessage, d: Descriptor)
    requires m.kind.DescriptorPublication? && About(m, d)
    ensures Handle(s, OnCatalog(m)).rows == OnRows(OnRows(s.rows, CurrentPlan(s.rows, m, d).0), PreviousPlan(m, d).0)
  {
  }

  /** What a publication makes of the row of another descriptor, and of all other rows. */
  lemma PredecessorRow(s: Store, m: CatalogMessage, d: Descriptor, k: DescriptorKey)
    requires m.kind.DescriptorPublication? && About(m, d) && k != DescriptorKey(m.eservice.id, d.id)
    ensures var s1 := Handle(s, OnCatalog(m));
            && s1.rows.(descriptors := s.rows.descriptors) == s.rows
            && Lookup(s1.rows.descriptors, k) == if CleansUp(m, d, k) then None else Lookup(s.rows.descriptors, k)
  {
    var current, previous := CurrentPlan(s.rows, m, d), PreviousPlan(m, d);
    RowsAfterPublication(s, m, d);
    assert Lookup(OnRows(s.rows, current.0).descriptors, k) == Lookup(s.rows.descriptors, k);
  }

  /** And of an entry of another descriptor. */
  lemma PredecessorEntry(s: Store, m: CatalogMessage, d: Descriptor, k: DescriptorKey, pk: TokenKey)
    requires m.kind.DescriptorPublication? && About(m, d) && k != DescriptorKey(m.eservice.id, d.id)
    requires pk in s.tokens && s.tokens[pk].ConsumerEntry? && s.tokens[pk].descriptorKey == Some(k)
    ensures var s1 := Handle(s, OnCatalog(m));
            && pk in s1.tokens
            && s1.tokens[pk] == if CleansUp(m, d, k) then s.tokens[pk].(descriptorState := Some(INACTIVE))
                                else s.tokens[pk]
  {
  }
}
