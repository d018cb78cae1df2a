/** The V1 messages of the purpose and agreement writers, before, after and between V2 ones. */
module UpstreamV1 {
  import opened Wrappers
  import opened Domain
  import opened Tables
  import opened Effects
  import opened PurposeWriter
  import opened AgreementWriter
  import opened Platform
  import opened Coherence
  import opened CrashConvergence

  /* ---- purposes ---- */

  datatype PurposeKindV1 =
    | VersionActivated
    | VersionSuspended
    | VersionArchived(last: PurposeVersionId)  // the version archived last
    | OtherPurposeV1

  datatype PurposeMessageV1 = PurposeMessageV1(kind: PurposeKindV1, purpose: Purpose, version: int)

  /** The V2 message whose join an activation of an unknown purpose uses. */
  function AsActivation(m: PurposeMessageV1, v: PurposeVersionId): PurposeMessage {
    PurposeMessage(PurposeActivation, m.purpose, v, m.version)
  }

  function PlanPurposeV1(s: Rows, m: PurposeMessageV1): Result<Plan, WriterError> {
    var id, state := m.purpose.id, PurposeState(m.purpose.versions);
    var existing := Lookup(s.purposes, id);
    var outdated := existing.Some? && existing.value.version > m.version;
    match m.kind
    case VersionActivated =>
      (match LiveVersion(m.purpose.versions)
       case None => Err(NoLivePurposeVersion)
       case Some(v) =>
         if outdated then Ok(SKIP)
         else if existing.Some? then
           Ok(Plan(PutPurpose(id, existing.value.(state := state, versionId := v.id, version := m.version)),
                   PatchTokens(PurposePatch(id, state, v.id)), Nothing, Nothing))
         else
           Ok(Plan(PutPurpose(id, PurposeRow(state, v.id, m.purpose.eservice, m.purpose.consumer, m.version)),
                   PatchTokens(JoinPatch(s, AsActivation(m, v.id), v.id)), Nothing, Nothing)))
    case VersionSuspended =>
      if existing.None? || outdated then Ok(SKIP)
      else
        Ok(Plan(PutPurpose(id, existing.value.(state := state, version := m.version)),
                PatchTokens(PurposePatch(id, state, existing.value.versionId)), Nothing, Nothing))
    case VersionArchived(last) =>
      Ok(Plan(DropPurpose(id), PatchTokens(PurposePatch(id, state, last)), Nothing, Nothing))
    case OtherPurposeV1 => Ok(SKIP)
  }

  predicate PurposeV1Admissible(j: Journal, m: PurposeMessageV1) {
    && AgreementKey(m.purpose.consumer, m.purpose.eservice) == j.home(m.purpose.id)
    && (m.kind.VersionArchived? ==> PurposeState(m.purpose.versions) == INACTIVE)
  }

  function HandlePurposeV1(s: Store, m: PurposeMessageV1): Store {
    match PlanPurposeV1(s.rows, m)
    case Ok(p) => Run(s, p)
    case Err(_) => s
  }

  lemma PurposeV1KeepsCoherence(j: Journal, s: Store, m: PurposeMessageV1)
    requires Coherent(j, s) && PurposeV1Admissible(j, m)
    ensures Coherent(j, HandlePurposeV1(s, m))
  {
    var plan, p := PlanPurposeV1(s.rows, m), m.purpose.id;
    if plan.Ok? && plan.value != SKIP {
      if m.kind.VersionArchived? {
        PurposeArchivalKeepsCoherence(j, s, p, m.kind.last);
      } else {
        var row := plan.value.first.purposeRow;
        if p in s.rows.purposes {
          PurposeUpdateKeepsCoherence(j, s, p, row);
        } else {
          PurposeJoinKeepsCoherence(j, s, AsActivation(m, row.versionId), row);
        }
      }
    }
  }

  /* ---- agreements ---- */

  datatype AgreementKindV1 =
    | ActivatedOrSuspended
    | Updated
    | AddedV1
    | Deactivated
    | OtherAgreementV1

  datatype AgreementMessageV1 =
    | AboutAgreement(kind: AgreementKindV1, agreement: Agreement, version: int)
    | AgreementGone(id: AgreementId, version: int)

  predicate IsLive(s: AgreementState) {
    s == Active || s == Suspended
  }

  /** Whether the message makes the agreement the one of its row, or archives it. */
  predicate Raises(m: AgreementMessageV1) {
    m.AboutAgreement? && (m.kind.ActivatedOrSuspended?
                          || ((m.kind.Updated? || m.kind.AddedV1?) && IsLive(m.agreement.state)))
  }

  predicate Archives(m: AgreementMessageV1) {
    m.AboutAgreement? && (m.kind.Deactivated? || (m.kind.Updated? && m.agreement.state == Archived))
  }

  /** The V2 message that the shared parts of the handlers see. */
  function AsV2(m: AgreementMessageV1): AgreementMessage
    requires m.AboutAgreement?
  {
    AgreementMessage(if Archives(m) then ConsumerArchival else SuspensionChange, m.agreement, m.version)
  }

  function PlanAgreementV1(s: Rows, m: AgreementMessageV1): Plan {
    if Raises(m) then
      var existing, timestamp := Lookup(s.agreements, KeyOf(m.agreement)), ExtractTimestamp(m.agreement);
      if !IsLatest(existing, timestamp) || Outdated(existing, AsV2(m)) then SKIP else LatestPlan(s, AsV2(m), timestamp)
    else if Archives(m) then
      AgreementWriter.PlanOf(s, AsV2(m)).value
    else SKIP
  }

  /** A deletion names the agreement alone: two scans set the rows and then the entries that show it.
      An attempt that crashes gets to some of them. */
  function RowsWithout(rows: map<AgreementKey, AgreementRow>, id: AgreementId, version: int,
                       reached: AgreementKey -> bool): map<AgreementKey, AgreementRow>
  {
    map k | k in rows :: if rows[k].agreementId == id && reached(k) then rows[k].(state := INACTIVE, version := version)
      else rows[k]
  }

  function EntryWithout(e: TokenEntry, id: AgreementId): TokenEntry {
    if e.ConsumerEntry? && e.agreementId == Some(id) then e.(agreementState := Some(INACTIVE)) else e
  }

  function TokensWithout(t: Tokens, id: AgreementId, reached: TokenKey -> bool): Tokens {
    map pk | pk in t :: if reached(pk) then EntryWithout(t[pk], id) else t[pk]
  }

  function Without(s: Store, id: AgreementId, version: int, rows: AgreementKey -> bool,
                   entries: TokenKey -> bool): Store
  {
    Store(s.rows.(agreements := RowsWithout(s.rows.agreements, id, version, rows)),
          TokensWithout(s.tokens, id, entries))
  }

  function HandleAgreementV1(s: Store, m: AgreementMessageV1): Store {
    match m
    case AboutAgreement(_, _, _) => Run(s, PlanAgreementV1(s.rows, m))
    case AgreementGone(id, version) => Without(s, id, version, (k: AgreementKey) => true, (pk: TokenKey) => true)
  }

  lemma DeletionKeepsEntry(j: Journal, s: Rows, id: AgreementId, version: int, pk: TokenKey, e: TokenEntry)
    requires EntryCoherent(j, s, pk, e)
    ensures EntryCoherent(j, s.(agreements := RowsWithout(s.agreements, id, version, (k: AgreementKey) => true)), pk,
                          EntryWithout(e, id))
  {
  }

  lemma AgreementV1KeepsCoherence(j: Journal, s: Store, m: AgreementMessageV1)
    requires Coherent(j, s)
    ensures Coherent(j, HandleAgreementV1(s, m))
  {
    if m.AgreementGone? {
      forall pk | pk in s.tokens
        ensures EntryCoherent(j, HandleAgreementV1(s, m).rows, pk, EntryWithout(s.tokens[pk], m.id))
      {
        DeletionKeepsEntry(j, s.rows, m.id, m.version, pk, s.tokens[pk]);
      }
    } else if Raises(m) {
      AgreementUpsertKeepsCoherence(j, s, AsV2(m), ExtractTimestamp(m.agreement));
    } else if Archives(m) {
      AgreementMessageKeepsCoherence(j, s, AsV2(m));
    }
  }

  /* ---- whole runs ---- */

  datatype AnyMessage =
    | V2(message: Message)
    | PurposeV1(purposeMessage: PurposeMessageV1)
    | AgreementV1(agreementMessage: AgreementMessageV1)

  predicate AnyAdmissible(j: Journal, m: AnyMessage) {
    match m
    case V2(v2) => Admissible(j, v2)
    case PurposeV1(v1) => PurposeV1Admissible(j, v1)
    case AgreementV1(_) => true
  }

  function HandleAny(s: Store, m: AnyMessage): Store {
    match m
    case V2(v2) => Handle(s, v2)
    case PurposeV1(v1) => HandlePurposeV1(s, v1)
    case AgreementV1(v1) => HandleAgreementV1(s, v1)
  }

  function RunAny(s: Store, ms: seq<AnyMessage>): Store {
    if ms == [] then s else HandleAny(RunAny(s, ms[..|ms| - 1]), ms[|ms| - 1])
  }

  /** View coherence over runs that mix V1 messages of purposes and agreements with V2 messages of all
      topics. */
  lemma {:induction false} MixedRunsStayCoherent(j: Journal, s: Store, ms: seq<AnyMessage>)
    requires Coherent(j, s)
    requires forall m :: m in ms ==> AnyAdmissible(j, m)
    ensures Coherent(j, RunAny(s, ms))
  {
    if ms != [] {
      var before, m := RunAny(s, ms[..|ms| - 1]), ms[|ms| - 1];
      MixedRunsStayCoherent(j, s, ms[..|ms| - 1]);
      assert m in ms && AnyAdmissible(j, m);
      match m
      case V2(v2) =>
        assert [v2][..0] == [] && RunFrom(before, [v2]) == Handle(before, v2);
        ViewCoherence(j, before, [v2]);
      case PurposeV1(v1) => PurposeV1KeepsCoherence(j, before, v1);
      case AgreementV1(v1) => AgreementV1KeepsCoherence(j, before, v1);
    }
  }

  /* ---- crashed attempts at agreement messages ---- */

  lemma PlanAgreementV1Stable(s: Rows, m: AgreementMessageV1, written: bool)
    requires Raises(m)
    ensures PlanAgreementV1(OnRowsPart(s, PlanAgreementV1(s, m).first, written), m) == PlanAgreementV1(s, m)
  {
  }

  lemma RaisingRetry(s: Store, m: AgreementMessageV1, cut: Cut)
    requires Raises(m) && PlanAgreementV1(s.rows, m) != SKIP
    ensures HandleAgreementV1(RunPart(s, PlanAgreementV1(s.rows, m), cut), m) == HandleAgreementV1(s, m)
  {
    RowThenPatchAbsorbs(s, PlanAgreementV1(s.rows, m), cut);
    PlanAgreementV1Stable(s.rows, m, cut.first.row);
  }

  lemma ArchivesAsV2(s: Store, m: AgreementMessageV1)
    requires Archives(m)
    ensures PlanFor(s.rows, OnAgreement(AsV2(m))) == Ok(PlanAgreementV1(s.rows, m))
    ensures HandleAgreementV1(s, m) == Handle(s, OnAgreement(AsV2(m)))
  {
  }

  lemma ArchivingRetry(s: Store, m: AgreementMessageV1, cut: Cut)
    requires Archives(m)
    ensures HandleAgreementV1(RunPart(s, PlanAgreementV1(s.rows, m), cut), m) == HandleAgreementV1(s, m)
  {
    AgreementRetry(s, AsV2(m), cut);
    ArchivesAsV2(s, m);
    ArchivesAsV2(Crash(s, OnAgreement(AsV2(m)), cut), m);
  }

  /** A crashed attempt leaves no trace after the retry. */
  lemma AgreementV1Retry(s: Store, m: AgreementMessageV1, cut: Cut)
    requires m.AboutAgreement?
    ensures HandleAgreementV1(RunPart(s, PlanAgreementV1(s.rows, m), cut), m) == HandleAgreementV1(s, m)
  {
    if PlanAgreementV1(s.rows, m) != SKIP {
      if Raises(m) {
        RaisingRetry(s, m, cut);
      } else {
        ArchivingRetry(s, m, cut);
      }
    }
  }

  /** Nor does one at a deletion, wherever its two scans stop. */
  lemma DeletionRetry(s: Store, id: AgreementId, version: int, rows: AgreementKey -> bool, entries: TokenKey -> bool)
    ensures HandleAgreementV1(Without(s, id, version, rows, entries), AgreementGone(id, version))
            == HandleAgreementV1(s, AgreementGone(id, version))
  {
  }

  /* ---- crashed attempts at purpose messages ---- */

  function CrashPurposeV1(s: Store, m: PurposeMessageV1, cut: Cut): Store {
    match PlanPurposeV1(s.rows, m)
    case Ok(p) => RunPart(s, p, cut)
    case Err(_) => s
  }

  /** The message activates a purpose without row, and some entry of it lacks what the join adds. */
  predicate AwaitsJoin(s: Store, m: PurposeMessageV1) {
    var plan := PlanPurposeV1(s.rows, m);
    m.kind.VersionActivated? && m.purpose.id !in s.rows.purposes && plan.Ok?
    && exists pk ::
         pk in s.tokens
         && PatchedAt(plan.value.second.patch, pk, s.tokens[pk]) != PatchedAt(UpdateOf(plan.value), pk, s.tokens[pk])
  }

  /** What the retry propagates once the row is there: state and version, but no join. */
  function UpdateOf(p: Plan): Patch
    requires p.first.PutPurpose?
  {
    PurposePatch(p.first.purpose, p.first.purposeRow.state, p.first.purposeRow.versionId)
  }

  lemma ActivationPlan(s: Rows, m: PurposeMessageV1)
    requires m.kind.VersionActivated? && m.purpose.id !in s.purposes && PlanPurposeV1(s, m).Ok?
    ensures var p := PlanPurposeV1(s, m).value;
            && p.first.PutPurpose? && p.second.PatchTokens? && p.third == p.fourth == Nothing
            && p.second.patch.PurposeJoinPatch? && p.second.patch.purpose == p.first.purpose
            && p.second.patch.state == p.first.purposeRow.state
            && p.second.patch.versionId == p.first.purposeRow.versionId
            && PlanPurposeV1(OnRows(s, p.first), m) == Ok(Plan(p.first, PatchTokens(UpdateOf(p)), Nothing, Nothing))
  {
  }

  /** An entry that the join has reached is left alone by the update, and the other way round the update
      does the join's work where there is none to do. */
  lemma UpdateAfterJoin(join: Patch, update: Patch, pk: TokenKey, e: TokenEntry, joined: bool)
    requires join.PurposeJoinPatch? && update == PurposePatch(join.purpose, join.state, join.versionId)
    requires PatchedAt(join, pk, e) == PatchedAt(update, pk, e)
    ensures PatchedAt(update, pk, if joined then PatchedAt(join, pk, e) else e) == PatchedAt(join, pk, e)
  {
  }

  lemma UpdateCompletes(join: Patch, update: Patch, t: Tokens, keys: set<TokenKey>)
    requires join.PurposeJoinPatch? && update == PurposePatch(join.purpose, join.state, join.versionId)
    requires forall pk :: pk in t ==> PatchedAt(join, pk, t[pk]) == PatchedAt(update, pk, t[pk])
    ensures PatchAll(update, PatchSome(join, t, keys)) == PatchAll(join, t)
  {
    forall pk | pk in t ensures PatchAll(update, PatchSome(join, t, keys))[pk] == PatchAll(join, t)[pk] {
      UpdateAfterJoin(join, update, pk, t[pk], pk in keys);
    }
  }

  lemma OtherPlanStable(s: Rows, m: PurposeMessageV1, written: bool)
    requires PlanPurposeV1(s, m).Ok? && (m.kind.VersionActivated? ==> m.purpose.id in s.purposes)
    ensures PlanPurposeV1(OnRowsPart(s, PlanPurposeV1(s, m).value.first, written), m) == PlanPurposeV1(s, m)
  {
  }

  /** One crashed attempt at an activation that finds no row. */
  lemma ActivationRetry(s: Store, m: PurposeMessageV1, cut: Cut)
    requires m.kind.VersionActivated? && m.purpose.id !in s.rows.purposes && PlanPurposeV1(s.rows, m).Ok?
             && !AwaitsJoin(s, m)
    ensures HandlePurposeV1(CrashPurposeV1(s, m, cut), m) == HandlePurposeV1(s, m)
  {
    ActivationPlan(s.rows, m);
    var p := PlanPurposeV1(s.rows, m).value;
    RowThenPatchAbsorbs(s, p, cut);
    if cut.first.row {
      UpdateCompletes(p.second.patch, UpdateOf(p), s.tokens, cut.second.keys);
      RowTwice(s.rows, p.first, true);
    }
  }

  lemma OnlyTheRow(s: Store, p: Plan)
    requires p.first.PutPurpose? && p.second.PatchTokens? && p.third == p.fourth == Nothing
    ensures RunPart(s, p, RowOnly()) == Apply(s, p.first)
  {
    assert PatchSome(p.second.patch, s.tokens, {}) == s.tokens;
  }

  /** And one that the retry does not repair: it stops after the row write. */
  lemma JoinIsLost(s: Store, m: PurposeMessageV1)
    requires AwaitsJoin(s, m)
    ensures HandlePurposeV1(CrashPurposeV1(s, m, RowOnly()), m) != HandlePurposeV1(s, m)
  {
    ActivationPlan(s.rows, m);
    var p := PlanPurposeV1(s.rows, m).value;
    var pk :| pk in s.tokens && PatchedAt(p.second.patch, pk, s.tokens[pk]) != PatchedAt(UpdateOf(p), pk, s.tokens[pk]);
    OnlyTheRow(s, p);
    assert HandlePurposeV1(Apply(s, p.first), m).tokens[pk] == PatchedAt(UpdateOf(p), pk, s.tokens[pk]);
    assert HandlePurposeV1(s, m).tokens[pk] == PatchedAt(p.second.patch, pk, s.tokens[pk]);
  }

  /** The retry of a V1 activation takes another branch, since it finds the row that the crashed attempt
      wrote.  Crashes of a V1 purpose message converge exactly when no entry waits for the join. */
  lemma PurposeV1Convergence(s: Store, m: PurposeMessageV1)
    ensures (forall cut :: HandlePurposeV1(CrashPurposeV1(s, m, cut), m) == HandlePurposeV1(s, m)) <==>
              !AwaitsJoin(s, m)
  {
    if AwaitsJoin(s, m) {
      JoinIsLost(s, m);
    } else {
      forall cut ensures HandlePurposeV1(CrashPurposeV1(s, m, cut), m) == HandlePurposeV1(s, m) {
        var plan := PlanPurposeV1(s.rows, m);
        if plan.Ok? && plan.value != SKIP {
          if m.kind.VersionActivated? && m.purpose.id !in s.rows.purposes {
            ActivationRetry(s, m, cut);
          } else {
            RowThenPatchAbsorbs(s, plan.value, cut);
            OtherPlanStable(s.rows, m, cut.first.row);
          }
        }
      }
    }
  }
}
