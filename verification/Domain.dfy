/** Option and Result, for the source's `undefined` and thrown errors. */
module Wrappers {
  datatype Option<+T> = None | Some(value: T)

  datatype Result<+T, +E> = Ok(value: T) | Err(error: E) {
    predicate IsFailure() {
      Err?
    }

    function PropagateFailure<U>(): Result<U, E>
      requires Err?
    {
      Err(error)
    }

    function Extract(): T
      requires Ok?
    {
      value
    }
  }

  function Lookup<K, V>(m: map<K, V>, k: K): (r: Option<V>)
    ensures r.Some? <==> k in m
    ensures k in m ==> r == Some(m[k])
  {
    if k in m then Some(m[k]) else None
  }
}

/** The entities that the event messages and the read models carry.  Dates are integers. */
module Domain {
  import opened Wrappers

  // Each kind of identifier is a type of its own, so ids of different kinds never clash.
  datatype TenantId = TenantId(raw: string)
  datatype EServiceId = EServiceId(raw: string)
  datatype DescriptorId = DescriptorId(raw: string)
  datatype AgreementId = AgreementId(raw: string)
  datatype PurposeId = PurposeId(raw: string)
  datatype PurposeVersionId = PurposeVersionId(raw: string)
  datatype ClientId = ClientId(raw: string)
  datatype AttributeId = AttributeId(raw: string)
  datatype UserId = UserId(raw: string)
  datatype DelegationId = DelegationId(raw: string)

  datatype AgreementState =
    Draft | Suspended | Archived | Pending | Active | MissingCertifiedAttributes | Rejected

  datatype Stamp = Stamp(who: UserId, delegation: Option<DelegationId>, when: int)

  datatype Stamps = Stamps(
    submission: Option<Stamp>,
    activation: Option<Stamp>,
    rejection: Option<Stamp>,
    suspensionByProducer: Option<Stamp>,
    suspensionByConsumer: Option<Stamp>,
    upgrade: Option<Stamp>,
    archiving: Option<Stamp>)

  const NO_STAMPS := Stamps(None, None, None, None, None, None, None)

  datatype Agreement = Agreement(
    id: AgreementId,
    eservice: EServiceId,
    descriptor: DescriptorId,
    producer: TenantId,
    consumer: TenantId,
    state: AgreementState,
    certified: seq<AttributeId>,
    declared: seq<AttributeId>,
    verified: seq<AttributeId>,
    suspendedByConsumer: Option<bool>,
    suspendedByProducer: Option<bool>,
    suspendedByPlatform: Option<bool>,
    createdAt: int,
    stamps: Stamps,
    rejectionReason: Option<string>,
    suspendedAt: Option<int>)

  datatype DescriptorState =
    DraftDescriptor | Published | Deprecated | SuspendedDescriptor | ArchivedDescriptor | WaitingForApproval

  datatype ApprovalPolicy = Manual | Automatic

  /** Conjunctions of disjunctions: one attribute of each group is needed. */
  datatype Requirements = Requirements(
    certified: seq<seq<AttributeId>>,
    declared: seq<seq<AttributeId>>,
    verified: seq<seq<AttributeId>>)

  datatype Descriptor = Descriptor(
    id: DescriptorId,
    version: int,
    state: DescriptorState,
    audience: seq<string>,
    voucherLifespan: int,
    approvalPolicy: Option<ApprovalPolicy>,
    attributes: Requirements)

  function FindDescriptor(ds: seq<Descriptor>, id: DescriptorId): (r: Option<Descriptor>)
    ensures r.Some? ==> r.value in ds && r.value.id == id
    ensures r.None? ==> forall d :: d in ds ==> d.id != id
  {
    if ds == [] then None
    else if ds[0].id == id then Some(ds[0])
    else FindDescriptor(ds[1..], id)
  }

  datatype EService = EService(id: EServiceId, producer: TenantId, descriptors: seq<Descriptor>)

  datatype PurposeVersionState =
    DraftVersion | ActiveVersion | SuspendedVersion | ArchivedVersion | WaitingVersion | RejectedVersion

  datatype PurposeVersion = PurposeVersion(id: PurposeVersionId, state: PurposeVersionState)

  datatype Purpose = Purpose(
    id: PurposeId,
    eservice: EServiceId,
    consumer: TenantId,
    versions: seq<PurposeVersion>)

  datatype ClientKind = ConsumerClient | ApiClient

  datatype Key = Key(kid: string, encodedPem: string)

  datatype Client = Client(
    id: ClientId,
    consumer: TenantId,
    kind: ClientKind,
    keys: seq<Key>,
    purposes: seq<PurposeId>)
}
