/** catalog-platformstate-writer, V2 messages. */
module CatalogWriter {
  import opened Wrappers
  import opened Domain
  import opened Tables
  import opened Effects

  datatype CatalogMessageKind =
    | DescriptorPublication  // EServiceDescriptorPublished, EServiceDescriptorApprovedByDelegator
    | DescriptorStateChange  // EServiceDescriptorActivated, EServiceDescriptorSuspended
    | DescriptorArchival     // EServiceDescriptorArchived
    | QuotasUpdate           // EServiceDescriptorQuotasUpdated
    | OtherCatalogEvent

  datatype CatalogMessage = CatalogMessage(
    kind: CatalogMessageKind,
    eservice: EService,
    descriptor: DescriptorId,
    version: int)

  function DescriptorItemState(state: DescriptorState): ItemState {
    if state == Published || state == Deprecated then ACTIVE else INACTIVE
  }

  function FindVersion(ds: seq<Descriptor>, version: int): (r: Option<Descriptor>)
    ensures r.Some? ==> r.value in ds && r.value.version == version
    ensures r.None? ==> forall d :: d in ds ==> d.version != version
  {
    if ds == [] then None
    else if ds[0].version == version then Some(ds[0])
    else FindVersion(ds[1..], version)
  }

  /** The row and propagation for the descriptor that the message publishes. */
  function CurrentPlan(s: Rows, m: CatalogMessage, d: Descriptor): (Effect, Effect) {
    var key := DescriptorKey(m.eservice.id, d.id);
    var state := DescriptorItemState(d.state);
    var existing := Lookup(s.descriptors, key);
    if existing.Some? && existing.value.version > m.version then (Nothing, Nothing)
    else
      var row :=
        if existing.Some? then existing.value.(state := state, version := m.version)
        else CatalogRow(state, d.audience, d.voucherLifespan, m.version);
      (PutDescriptor(key, row), PatchTokens(DescriptorInfoPatch(key, state, d.voucherLifespan, d.audience)))
  }

  /** The clean-up of the descriptor's predecessor, once that one is archived. */
  function PreviousPlan(m: CatalogMessage, d: Descriptor): (Effect, Effect) {
    var previous := FindVersion(m.eservice.descriptors, d.version - 1);
    if previous.None? || previous.value.state != ArchivedDescriptor then (Nothing, Nothing)
    else
      var key := DescriptorKey(m.eservice.id, previous.value.id);
      (DropDescriptor(key), PatchTokens(DescriptorStatePatch(key, DescriptorItemState(previous.value.state))))
  }

  function PlanOf(s: Rows, m: CatalogMessage): Result<Plan, WriterError> {
    if m.kind.OtherCatalogEvent? then Ok(SKIP)
    else
      match FindDescriptor(m.eservice.descriptors, m.descriptor)
      case None => Err(MissingDescriptor)
      case Some(d) =>
        var key := DescriptorKey(m.eservice.id, d.id);
        var state := DescriptorItemState(d.state);
        var existing := Lookup(s.descriptors, key);
        match m.kind
        case DescriptorPublication =>
          var current, previous := CurrentPlan(s, m, d), PreviousPlan(m, d);
          Ok(Plan(current.0, current.1, previous.0, previous.1))
        case DescriptorStateChange =>
          if existing.None? || existing.value.version > m.version then Ok(SKIP)
          else
            Ok(Plan(PutDescriptor(key, existing.value.(state := state, version := m.version)),
                    PatchTokens(DescriptorStatePatch(key, state)), Nothing, Nothing))
        case DescriptorArchival =>
          Ok(Plan(DropDescriptor(key), PatchTokens(DescriptorStatePatch(key, state)), Nothing, Nothing))
        case QuotasUpdate =>
          if existing.None? || existing.value.version > m.version || d.voucherLifespan == existing.value.lifespan
            then Ok(SKIP)
          else
            Ok(Plan(PutDescriptor(key, existing.value.(lifespan := d.voucherLifespan, version := m.version)),
                    PatchTokens(LifespanPatch(key, d.voucherLifespan)), Nothing, Nothing))
        case OtherCatalogEvent => Ok(SKIP)
  }
}
