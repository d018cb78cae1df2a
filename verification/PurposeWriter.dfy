/** purpose-platformstate-writer, V2 messages. */
module PurposeWriter {
  import opened Wrappers
  import opened Domain
  import opened Tables
  import opened Effects

  datatype PurposeMessageKind =
    | PurposeActivation   // PurposeActivated, PurposeVersionActivated
    | VersionChange       // NewPurposeVersionActivated, the four (un)suspensions
    | PurposeArchival     // PurposeArchived
    | OtherPurposeEvent

  datatype PurposeMessage = PurposeMessage(
    kind: PurposeMessageKind,
    purpose: Purpose,
    versionId: PurposeVersionId,
    version: int)

  function PurposeState(versions: seq<PurposeVersion>): ItemState {
    if exists v :: v in versions && v.state == ActiveVersion then ACTIVE else INACTIVE
  }

  /** The first version that is active or suspended. */
  function LiveVersion(versions: seq<PurposeVersion>): Option<PurposeVersion> {
    if versions == [] then None
    else if versions[0].state == ActiveVersion || versions[0].state == SuspendedVersion then Some(versions[0])
    else LiveVersion(versions[1..])
  }

  /** The agreement row of the purpose's consumer and e-service, and the catalog row it points to. */
  function JoinPatch(s: Rows, m: PurposeMessage, versionId: PurposeVersionId): Patch {
    var home := AgreementKey(m.purpose.consumer, m.purpose.eservice);
    var agreement := Lookup(s.agreements, home);
    var catalog :=
      if agreement.Some? then Lookup(s.descriptors, DescriptorKey(m.purpose.eservice, agreement.value.descriptor))
        else None;
    PurposeJoinPatch(m.purpose.id, PurposeState(m.purpose.versions), versionId, home, agreement, catalog)
  }

  function PlanOf(s: Rows, m: PurposeMessage): Result<Plan, WriterError> {
    var id := m.purpose.id;
    var state := PurposeState(m.purpose.versions);
    var existing := Lookup(s.purposes, id);
    match m.kind
    case PurposeActivation =>
      (match LiveVersion(m.purpose.versions)
       case None => Err(NoLivePurposeVersion)
       case Some(v) =>
         if existing.Some? && existing.value.version > m.version then Ok(SKIP)
         else
           var row :=
             if existing.Some? then existing.value.(state := state, versionId := v.id, version := m.version)
             else PurposeRow(state, v.id, m.purpose.eservice, m.purpose.consumer, m.version);
           Ok(Plan(PutPurpose(id, row), PatchTokens(JoinPatch(s, m, v.id)), Nothing, Nothing)))
    case VersionChange =>
      if existing.None? || existing.value.version > m.version then Ok(SKIP)
      else
        Ok(Plan(PutPurpose(id, existing.value.(state := state, versionId := m.versionId, version := m.version)),
                PatchTokens(PurposePatch(id, state, m.versionId)), Nothing, Nothing))
    case PurposeArchival =>
      Ok(Plan(DropPurpose(id), PatchTokens(PurposePatch(id, state, m.versionId)), Nothing, Nothing))
    case OtherPurposeEvent => Ok(SKIP)
  }
}
