/** The two tables behind voucher generation: platform-states, one row per client, purpose,
    agreement and descriptor, and token-generation-states, the denormalised join of those rows
    with one entry per key and purpose. */
module Tables {
  import opened Wrappers
  import opened Domain

  datatype ItemState = ACTIVE | INACTIVE

  // Primary keys of platform-states and index keys of token-generation-states.
  datatype AgreementKey = AgreementKey(consumer: TenantId, eservice: EServiceId)
  datatype DescriptorKey = DescriptorKey(eservice: EServiceId, descriptor: DescriptorId)

  datatype PurposeRow = PurposeRow(
    state: ItemState,
    versionId: PurposeVersionId,
    eservice: EServiceId,
    consumer: TenantId,
    version: int)

  datatype AgreementRow = AgreementRow(
    state: ItemState,
    agreementId: AgreementId,
    timestamp: int,
    descriptor: DescriptorId,
    version: int)

  datatype CatalogRow = CatalogRow(
    state: ItemState,
    audience: seq<string>,
    lifespan: int,
    version: int)

  datatype ClientRow = ClientRow(
    kind: ClientKind,
    consumer: TenantId,
    purposes: seq<PurposeId>,
    version: int)

  /** Primary keys of token-generation-states.  The index attributes GSIPK_clientId,
      GSIPK_clientId_kid, GSIPK_clientId_purposeId and GSIPK_purposeId repeat components of the
      primary key in every entry that is ever written, so they are read off the key. */
  datatype TokenKey =
    | ClientKidPurpose(client: ClientId, kid: string, purpose: PurposeId)
    | ClientKid(client: ClientId, kid: string)

  datatype TokenEntry =
    | ConsumerEntry(
        consumer: TenantId,
        publicKey: string,
        agreementKey: Option<AgreementKey>,
        purposeState: Option<ItemState>,
        purposeVersionId: Option<PurposeVersionId>,
        agreementId: Option<AgreementId>,
        agreementState: Option<ItemState>,
        descriptorKey: Option<DescriptorKey>,
        descriptorState: Option<ItemState>,
        audience: Option<seq<string>>,
        lifespan: Option<int>)
    | ApiEntry(consumer: TenantId, publicKey: string)

  /** platform-states, its four kinds of row apart. */
  datatype Rows = Rows(
    purposes: map<PurposeId, PurposeRow>,
    agreements: map<AgreementKey, AgreementRow>,
    descriptors: map<DescriptorKey, CatalogRow>,
    clients: map<ClientId, ClientRow>)

  type Tokens = map<TokenKey, TokenEntry>

  datatype Store = Store(rows: Rows, tokens: Tokens)

  const NO_ROWS := Rows(map[], map[], map[], map[])

  const EMPTY_STORE := Store(NO_ROWS, map[])

  /** An entry without purpose data, as the V1 writer keeps it for a key of a purposeless client. */
  function PartialEntry(consumer: TenantId, publicKey: string): TokenEntry {
    ConsumerEntry(consumer, publicKey, None, None, None, None, None, None, None, None, None)
  }

  /* ---- updates that propagate a row to the entries an index selects ---- */

  /** One UpdateItem, together with the index query that selects the entries it goes to. */
  datatype Patch =
    | PurposePatch(purpose: PurposeId, state: ItemState, versionId: PurposeVersionId)
    | PurposeJoinPatch(
        purpose: PurposeId,
        state: ItemState,
        versionId: PurposeVersionId,
        home: AgreementKey,
        agreement: Option<AgreementRow>,
        catalog: Option<CatalogRow>)
    | AgreementStatePatch(agreementKey: AgreementKey, state: ItemState)
    | AgreementPatch(
        agreementKey: AgreementKey,
        agreementId: AgreementId,
        state: ItemState,
        target: DescriptorKey,
        catalog: Option<CatalogRow>)
    | DescriptorStatePatch(descriptorKey: DescriptorKey, state: ItemState)
    | DescriptorInfoPatch(descriptorKey: DescriptorKey, state: ItemState, lifespan: int, audience: seq<string>)
    | LifespanPatch(descriptorKey: DescriptorKey, lifespan: int)

  predicate Selects(patch: Patch, pk: TokenKey, e: TokenEntry) {
    e.ConsumerEntry? &&
    match patch
    case PurposePatch(p, _, _) => pk.ClientKidPurpose? && pk.purpose == p
    case PurposeJoinPatch(p, _, _, _, _, _) => pk.ClientKidPurpose? && pk.purpose == p
    case AgreementStatePatch(k, _) => e.agreementKey == Some(k)
    case AgreementPatch(k, _, _, _, _) => e.agreementKey == Some(k)
    case DescriptorStatePatch(d, _) => e.descriptorKey == Some(d)
    case DescriptorInfoPatch(d, _, _, _) => e.descriptorKey == Some(d)
    case LifespanPatch(d, _) => e.descriptorKey == Some(d)
  }

  /** The descriptor columns, written whenever a catalog row was read: the source compares the
      audience arrays by reference, so its "outdated" test always holds. */
  function WithCatalog(e: TokenEntry, catalog: Option<CatalogRow>): TokenEntry
    requires e.ConsumerEntry?
  {
    match catalog
    case None => e
    case Some(c) => e.(descriptorState := Some(c.state), audience := Some(c.audience), lifespan := Some(c.lifespan))
  }

  /** The agreement columns, written only when one of them is missing or outdated. */
  function WithAgreement(e: TokenEntry, agreement: Option<AgreementRow>, eservice: EServiceId): TokenEntry
    requires e.ConsumerEntry?
  {
    match agreement
    case None => e
    case Some(a) =>
      var target := DescriptorKey(eservice, a.descriptor);
      if e.agreementId != Some(a.agreementId) || e.agreementState != Some(a.state)
        || e.descriptorKey != Some(target) then
        e.(agreementId := Some(a.agreementId), agreementState := Some(a.state), descriptorKey := Some(target))
      else
        e
  }

  function Patched(patch: Patch, e: TokenEntry): TokenEntry
    requires e.ConsumerEntry?
  {
    match patch
    case PurposePatch(_, state, versionId) =>
      e.(purposeState := Some(state), purposeVersionId := Some(versionId))
    case PurposeJoinPatch(_, state, versionId, home, agreement, catalog) =>
      var e1 := e.(purposeState := Some(state), purposeVersionId := Some(versionId), agreementKey := Some(home));
      WithCatalog(WithAgreement(e1, agreement, home.eservice), if agreement.Some? then catalog else None)
    case AgreementStatePatch(_, state) =>
      e.(agreementState := Some(state))
    case AgreementPatch(_, id, state, target, catalog) =>
      WithCatalog(e.(agreementId := Some(id), agreementState := Some(state), descriptorKey := Some(target)), catalog)
    case DescriptorStatePatch(_, state) =>
      e.(descriptorState := Some(state))
    case DescriptorInfoPatch(_, state, lifespan, audience) =>
      e.(descriptorState := Some(state), audience := Some(audience), lifespan := Some(lifespan))
    case LifespanPatch(_, lifespan) =>
      e.(lifespan := Some(lifespan))
  }

  function PatchedAt(patch: Patch, pk: TokenKey, e: TokenEntry): TokenEntry {
    if Selects(patch, pk, e) then Patched(patch, e) else e
  }

  /** The table after the patch has reached the selected entries whose key lies in `keys`. */
  function PatchSome(patch: Patch, tokens: Tokens, keys: set<TokenKey>): Tokens {
    map pk | pk in tokens :: if pk in keys then PatchedAt(patch, pk, tokens[pk]) else tokens[pk]
  }

  function PatchAll(patch: Patch, tokens: Tokens): Tokens {
    map pk | pk in tokens :: PatchedAt(patch, pk, tokens[pk])
  }

  /** A second application changes nothing, although a patch may rewrite the columns that other
      indexes select on: what selects an entry for this patch survives it. */
  lemma PatchIdempotent(patch: Patch, pk: TokenKey, e: TokenEntry)
    ensures PatchedAt(patch, pk, PatchedAt(patch, pk, e)) == PatchedAt(patch, pk, e)
  {
  }
}
