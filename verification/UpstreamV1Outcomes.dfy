/** What each V1 message about a purpose or an agreement makes of the tables, told from the message and
    the tables alone. */
module UpstreamV1Outcomes {
  import opened Wrappers
  import opened Domain
  import opened Tables
  import opened Effects
  import opened PurposeWriter
  import opened AgreementWriter
  import Platform
  import opened PlatformTruth
  import opened AgreementConfluence
  import opened WriterOutcomes
  import V1 = UpstreamV1

  /* ---- purposes ---- */

  predicate SomeActiveV1(m: V1.PurposeMessageV1) {
    exists v :: v in m.purpose.versions && v.state == ActiveVersion
  }

  predicate OutdatedPurposeV1(s: Store, m: V1.PurposeMessageV1) {
    m.purpose.id in s.rows.purposes && s.rows.purposes[m.purpose.id].version > m.version
  }

  /** The handler fails exactly on an activation without a live version; an activation or suspension older
      than the row, and a suspension of a purpose without row, do nothing. */
  lemma PurposeV1Ignored(s: Store, m: V1.PurposeMessageV1)
    ensures V1.PlanPurposeV1(s.rows, m).Err? <==>
              m.kind.VersionActivated?
              && forall v :: v in m.purpose.versions ==> v.state !in {ActiveVersion, SuspendedVersion}
    ensures V1.PlanPurposeV1(s.rows, m).Err? || m.kind.OtherPurposeV1?
            || (OutdatedPurposeV1(s, m) && !m.kind.VersionArchived?)
            || (m.kind.VersionSuspended? && m.purpose.id !in s.rows.purposes) ==>
              V1.HandlePurposeV1(s, m) == s
  {
    LiveVersionIsFirst(m.purpose.versions);
  }

  /** Every entry of the purpose shows the state and the version, and nothing else changes. */
  predicate ShownOnEntries(s: Store, t: Store, p: PurposeId, state: ItemState, version: PurposeVersionId) {
    && t.tokens.Keys == s.tokens.Keys
    && forall pk :: pk in s.tokens ==>
         t.tokens[pk] == if !IsOfPurpose(pk, p) || s.tokens[pk].ApiEntry? then s.tokens[pk]
                         else s.tokens[pk].(purposeState := Some(state), purposeVersionId := Some(version))
  }

  /** An activation that finds a row changes its state and version, and the entries' alike. */
  lemma KnownPurposeActivatedV1(s: Store, m: V1.PurposeMessageV1, i: nat)
    requires m.kind.VersionActivated? && FirstLive(m.purpose.versions, i)
    requires m.purpose.id in s.rows.purposes && !OutdatedPurposeV1(s, m)
    ensures var p, t := m.purpose.id, V1.HandlePurposeV1(s, m);
            var state, version := StateIf(SomeActiveV1(m)), m.purpose.versions[i].id;
            && t.rows == s.rows.(purposes := s.rows.purposes[p := s.rows.purposes[p].(
                 state := state, versionId := version, version := m.version)])
            && ShownOnEntries(s, t, p, state, version)
  {
    LiveVersionIsFirst(m.purpose.versions);
  }

  /** One that finds none does what the V2 activation does. */
  lemma NewPurposeActivatedV1(s: Store, m: V1.PurposeMessageV1, i: nat)
    requires m.kind.VersionActivated? && FirstLive(m.purpose.versions, i) && m.purpose.id !in s.rows.purposes
    ensures V1.HandlePurposeV1(s, m)
            == Platform.Handle(s, Platform.OnPurpose(PurposeMessage(PurposeActivation, m.purpose,
                                                                    m.purpose.versions[i].id, m.version)))
  {
    LiveVersionIsFirst(m.purpose.versions);
  }

  lemma PurposeSuspendedV1(s: Store, m: V1.PurposeMessageV1)
    requires m.kind.VersionSuspended? && m.purpose.id in s.rows.purposes && !OutdatedPurposeV1(s, m)
    ensures var p, t, state := m.purpose.id, V1.HandlePurposeV1(s, m), StateIf(SomeActiveV1(m));
            && t.rows == s.rows.(purposes :=
                 s.rows.purposes[p := s.rows.purposes[p].(state := state, version := m.version)])
            && ShownOnEntries(s, t, p, state, s.rows.purposes[p].versionId)
  {
  }

  lemma PurposeArchivedV1(s: Store, m: V1.PurposeMessageV1)
    requires m.kind.VersionArchived?
    ensures var t := V1.HandlePurposeV1(s, m);
            && t.rows == s.rows.(purposes := s.rows.purposes - {m.purpose.id})
            && ShownOnEntries(s, t, m.purpose.id, StateIf(SomeActiveV1(m)), m.kind.last)
  {
  }

  /* ---- agreements ---- */

  /** The shared form of the message, for the statements about the tables. */
  function Seen(m: V1.AgreementMessageV1): AgreementMessage
    requires m.AboutAgreement?
  {
    AgreementMessage(SuspensionChange, m.agreement, m.version)
  }

  /** Activations and suspensions take over the row, and so do creations and updates of an agreement that
      is active or suspended; unless message or agreement is older than what the row shows. */
  lemma AgreementRaisedV1(s: Store, m: V1.AgreementMessageV1, t: int)
    requires m.AboutAgreement? && DatedAt(m.agreement, t)
    requires m.kind.ActivatedOrSuspended?
             || ((m.kind.Updated? || m.kind.AddedV1?) && m.agreement.state in {Active, Suspended})
    ensures var s1 := V1.HandleAgreementV1(s, m);
            if OutdatedAgreement(s, Seen(m), t) then s1 == s else Raises(s, Seen(m), t, s1)
  {
  }

  /** Deactivations, and updates that say archived, change the state if the row is the agreement's own. */
  lemma AgreementArchivedV1(s: Store, m: V1.AgreementMessageV1, t: int)
    requires m.AboutAgreement? && DatedAt(m.agreement, t)
    requires m.kind.Deactivated? || (m.kind.Updated? && m.agreement.state == Archived)
    ensures var k, s1 := AgreementKey(m.agreement.consumer, m.agreement.eservice), V1.HandleAgreementV1(s, m);
            if k in s.rows.agreements && s.rows.agreements[k].agreementId == m.agreement.id
               && s.rows.agreements[k].timestamp <= t
            then Restates(s, Seen(m), s1) else s1 == s
  {
  }

  /** All other messages about an agreement do nothing. */
  lemma OtherAgreementV1Message(s: Store, m: V1.AgreementMessageV1)
    requires m.AboutAgreement?
    requires m.kind.OtherAgreementV1?
             || (m.kind.Updated? && m.agreement.state !in {Active, Suspended, Archived})
             || (m.kind.AddedV1? && m.agreement.state !in {Active, Suspended})
    ensures V1.HandleAgreementV1(s, m) == s
  {
  }

  /** A deletion marks the rows and entries that show the agreement, and no other. */
  lemma AgreementDeletedV1(s: Store, id: AgreementId, version: int, k: AgreementKey, pk: TokenKey)
    ensures var s1 := V1.HandleAgreementV1(s, V1.AgreementGone(id, version));
            && s1.rows.(agreements := s.rows.agreements) == s.rows
            && Lookup(s1.rows.agreements, k)
               == (if k in s.rows.agreements && s.rows.agreements[k].agreementId == id
                   then Some(s.rows.agreements[k].(state := INACTIVE, version := version))
                   else Lookup(s.rows.agreements, k))
            && Lookup(s1.tokens, pk)
               == if pk in s.tokens && s.tokens[pk].ConsumerEntry? && s.tokens[pk].agreementId == Some(id)
                  then Some(s.tokens[pk].(agreementState := Some(INACTIVE))) else Lookup(s.tokens, pk)
  {
  }
}
