/** The simple table against the event streams: what the purpose and catalog rows show of the messages
    delivered so far, and with that what the gate decides. */
module PlatformTruth {
  import opened Wrappers
  import opened Domain
  import opened Tables
  import opened Effects
  import opened RowEffects
  import opened PurposeWriter
  import opened AgreementWriter
  import opened CatalogWriter
  import opened AuthorizationWriter
  import opened Platform
  import opened Coherence
  import AgreementConfluence
  import Gate

  /* ---- purposes ---- */

  predicate AboutPurpose(p: PurposeId, m: Message) {
    m.OnPurpose? && m.purposeMessage.purpose.id == p && !m.purposeMessage.kind.OtherPurposeEvent?
  }

  function PurposeStream(p: PurposeId, ms: seq<Message>): seq<PurposeMessage> {
    if ms == [] then []
    else
      var before, m := PurposeStream(p, ms[..|ms| - 1]), ms[|ms| - 1];
      if AboutPurpose(p, m) then before + [m.purposeMessage] else before
  }

  /** What a message about the purpose makes of its row: the effect of its plan. */
  function NextPurposeRow(existing: Option<PurposeRow>, m: PurposeMessage): Option<PurposeRow> {
    match PurposeWriter.PlanOf(PurposeAlone(m.purpose.id, existing), m)
    case Ok(plan) => PlanOnPurposeRow(m.purpose.id, existing, plan)
    case Err(_) => existing
  }

  /** A plan reads no purpose row but its own, and writes no other. */
  lemma PurposePlanWritesNextRow(s: Rows, m: PurposeMessage, p: PurposeId)
    ensures match PurposeWriter.PlanOf(s, m)
            case Ok(plan) => PlanOnPurposeRow(p, Lookup(s.purposes, p), plan)
                             == if m.purpose.id == p then NextPurposeRow(Lookup(s.purposes, p), m)
                               else Lookup(s.purposes, p)
            case Err(_) => m.purpose.id == p ==> NextPurposeRow(Lookup(s.purposes, p), m) == Lookup(s.purposes, p)
  {
  }

  lemma OtherPlansSparePurposes(s: Rows, m: Message, p: PurposeId, row: Option<PurposeRow>)
    requires !m.OnPurpose? && PlanFor(s, m).Ok?
    ensures PlanOnPurposeRow(p, row, PlanFor(s, m).value) == row
  {
  }

  lemma RunOnPurposeRow(s: Store, plan: Plan, p: PurposeId)
    ensures Lookup(Run(s, plan).rows.purposes, p) == PlanOnPurposeRow(p, Lookup(s.rows.purposes, p), plan)
  {
    RunOnRows(s, plan, p, AgreementKey(TenantId(""), EServiceId("")), DescriptorKey(EServiceId(""), DescriptorId("")));
  }

  function FinalPurposeRow(ms: seq<PurposeMessage>): Option<PurposeRow> {
    if ms == [] then None else NextPurposeRow(FinalPurposeRow(ms[..|ms| - 1]), ms[|ms| - 1])
  }

  lemma {:induction false} RunOfPurposeStream(s: Store, ms: seq<Message>, p: PurposeId)
    requires p !in s.rows.purposes
    ensures Lookup(RunFrom(s, ms).rows.purposes, p) == FinalPurposeRow(PurposeStream(p, ms))
  {
    if ms != [] {
      var before, m := RunFrom(s, ms[..|ms| - 1]), ms[|ms| - 1];
      RunOfPurposeStream(s, ms[..|ms| - 1], p);
      var plan := PlanFor(before.rows, m);
      if m.OnPurpose? {
        PurposePlanWritesNextRow(before.rows, m.purposeMessage, p);
      } else if plan.Ok? {
        OtherPlansSparePurposes(before.rows, m, p, Lookup(before.rows.purposes, p));
      }
      if plan.Ok? {
        RunOnPurposeRow(before, plan.value, p);
      }
      if AboutPurpose(p, m) {
        var stream := PurposeStream(p, ms);
        assert stream[..|stream| - 1] == PurposeStream(p, ms[..|ms| - 1]);
      }
    }
  }

  /** The version at `i` is the first that is active or suspended. */
  predicate FirstLive(versions: seq<PurposeVersion>, i: nat) {
    && i < |versions| && versions[i].state in {ActiveVersion, SuspendedVersion}
    && forall k :: 0 <= k < i ==> versions[k].state !in {ActiveVersion, SuspendedVersion}
  }

  lemma {:induction false} LiveVersionIsFirst(versions: seq<PurposeVersion>)
    ensures LiveVersion(versions).Some? <==> exists v :: v in versions && v.state in {ActiveVersion, SuspendedVersion}
    ensures forall i: nat :: FirstLive(versions, i) ==> LiveVersion(versions) == Some(versions[i])
    ensures LiveVersion(versions).Some? ==>
              exists i: nat :: FirstLive(versions, i) && LiveVersion(versions) == Some(versions[i])
  {
    if versions != [] {
      var rest := versions[1..];
      LiveVersionIsFirst(rest);
      assert forall k :: 0 <= k < |rest| ==> rest[k] == versions[k + 1];
      assert forall v :: v in versions <==> v == versions[0] || v in rest;
      if versions[0].state in {ActiveVersion, SuspendedVersion} {
        assert FirstLive(versions, 0);
      } else if LiveVersion(rest).Some? {
        var i: nat :| FirstLive(rest, i) && LiveVersion(rest) == Some(rest[i]);
        assert FirstLive(versions, i + 1);
      }
      forall i: nat | FirstLive(versions, i) ensures LiveVersion(versions) == Some(versions[i]) {
        if i > 0 {
          assert FirstLive(rest, i - 1);
        }
      }
    }
  }

  /** The stream begins with an activation, its versions do not go back, every activation has a live
      version to activate, and nothing follows the archival but its redelivery. */
  predicate PurposeInOrder(ms: seq<PurposeMessage>) {
    && (forall k :: 0 <= k < |ms| ==>
          && !ms[k].kind.OtherPurposeEvent?
          && (ms[k].kind.PurposeActivation? ==>
                exists v :: v in ms[k].purpose.versions && v.state in {ActiveVersion, SuspendedVersion}))
    && (ms != [] ==> ms[0].kind.PurposeActivation?)
    && (forall i, k :: 0 <= i < k < |ms| ==>
          ms[i].version <= ms[k].version && (ms[i].kind.PurposeArchival? ==> ms[k].kind.PurposeArchival?))
  }

  /** One activation more, which is not older than the row. */
  lemma ActivatedPurposeRow(row: Option<PurposeRow>, m: PurposeMessage)
    requires m.kind.PurposeActivation? && (row.Some? ==> row.value.version <= m.version)
    requires exists v :: v in m.purpose.versions && v.state in {ActiveVersion, SuspendedVersion}
    ensures var next := NextPurposeRow(row, m);
            && next.Some? && next.value.version == m.version
            && (next.value.state == ACTIVE <==> exists v :: v in m.purpose.versions && v.state == ActiveVersion)
            && exists i: nat ::
                 FirstLive(m.purpose.versions, i) && next.value.versionId == m.purpose.versions[i].id
  {
    LiveVersionIsFirst(m.purpose.versions);
    var i: nat :| FirstLive(m.purpose.versions, i) && LiveVersion(m.purpose.versions) == Some(m.purpose.versions[i]);
    assert NextPurposeRow(row, m).value.versionId == m.purpose.versions[i].id;
  }

  /** The purpose row shows the last message: gone if that is the archival, else ACTIVE if a version is
      active, with its version and the first live version, or the one that the message names. */
  lemma {:induction false} PurposeRowShowsLast(ms: seq<PurposeMessage>)
    requires PurposeInOrder(ms) && ms != []
    ensures var last, row := ms[|ms| - 1], FinalPurposeRow(ms);
            && (row.None? <==> last.kind.PurposeArchival?)
            && (row.Some? ==>
                  && (row.value.state == ACTIVE <==>
                        exists v :: v in last.purpose.versions && v.state == ActiveVersion)
                  && row.value.version == last.version
                  && if last.kind.PurposeActivation?
                     then exists i: nat :: FirstLive(last.purpose.versions, i)
                                           && row.value.versionId == last.purpose.versions[i].id
                     else row.value.versionId == last.versionId)
  {
    var before, last := ms[..|ms| - 1], ms[|ms| - 1];
    if before != [] {
      assert forall k :: 0 <= k < |before| ==> before[k] == ms[k];
      PurposeRowShowsLast(before);
    }
    if last.kind.PurposeActivation? {
      ActivatedPurposeRow(FinalPurposeRow(before), last);
    }
  }

  /* ---- descriptors ---- */

  predicate Retires(d: DescriptorKey, m: CatalogMessage, published: Descriptor) {
    var previous := FindVersion(m.eservice.descriptors, published.version - 1);
    previous.Some? && previous.value.state == ArchivedDescriptor && DescriptorKey(m.eservice.id, previous.value.id) == d
  }

  /** What a message makes of the row of `d`, its own descriptor's or that of the predecessor of the
      descriptor that it publishes: the effect of its plan. */
  function NextCatalogRow(existing: Option<CatalogRow>, d: DescriptorKey, m: CatalogMessage): Option<CatalogRow> {
    match CatalogWriter.PlanOf(CatalogAlone(d, existing), m)
    case Ok(plan) => PlanOnCatalogRow(d, existing, plan)
    case Err(_) => existing
  }

  lemma CatalogPlanWritesNextRow(s: Rows, m: CatalogMessage, d: DescriptorKey)
    ensures match CatalogWriter.PlanOf(s, m)
            case Ok(plan) => PlanOnCatalogRow(d, Lookup(s.descriptors, d), plan)
              == NextCatalogRow(Lookup(s.descriptors, d), d, m)
            case Err(_) => NextCatalogRow(Lookup(s.descriptors, d), d, m) == Lookup(s.descriptors, d)
  {
  }

  lemma OtherPlansSpareDescriptors(s: Rows, m: Message, d: DescriptorKey, row: Option<CatalogRow>)
    requires !m.OnCatalog? && PlanFor(s, m).Ok?
    ensures PlanOnCatalogRow(d, row, PlanFor(s, m).value) == row
  {
  }

  lemma RunOnCatalogRow(s: Store, plan: Plan, d: DescriptorKey)
    ensures Lookup(Run(s, plan).rows.descriptors, d) == PlanOnCatalogRow(d, Lookup(s.rows.descriptors, d), plan)
  {
    RunOnRows(s, plan, PurposeId(""), AgreementKey(TenantId(""), EServiceId("")), d);
  }

  /** The messages that concern the row of `d`. */
  predicate Concerns(d: DescriptorKey, m: CatalogMessage) {
    var found := FindDescriptor(m.eservice.descriptors, m.descriptor);
    found.Some? && !m.kind.OtherCatalogEvent?
      && (MessageKey(m) == d || (m.kind.DescriptorPublication? && Retires(d, m, found.value)))
  }

  predicate Removes(d: DescriptorKey, m: CatalogMessage)
    requires Concerns(d, m)
  {
    m.kind.DescriptorArchival?
      || (m.kind.DescriptorPublication? && Retires(d, m, FindDescriptor(m.eservice.descriptors, m.descriptor).value))
  }

  function CatalogStream(d: DescriptorKey, ms: seq<Message>): seq<CatalogMessage> {
    if ms == [] then []
    else
      var before, m := CatalogStream(d, ms[..|ms| - 1]), ms[|ms| - 1];
      if m.OnCatalog? && Concerns(d, m.catalogMessage) then before + [m.catalogMessage] else before
  }

  function FinalCatalogRow(d: DescriptorKey, ms: seq<CatalogMessage>): Option<CatalogRow> {
    if ms == [] then None else NextCatalogRow(FinalCatalogRow(d, ms[..|ms| - 1]), d, ms[|ms| - 1])
  }

  /** One message more. */
  lemma HandledCatalogRow(s: Store, m: Message, d: DescriptorKey)
    ensures Lookup(Handle(s, m).rows.descriptors, d)
            == if m.OnCatalog? then NextCatalogRow(Lookup(s.rows.descriptors, d), d, m.catalogMessage)
               else Lookup(s.rows.descriptors, d)
  {
    var plan := PlanFor(s.rows, m);
    if m.OnCatalog? {
      CatalogPlanWritesNextRow(s.rows, m.catalogMessage, d);
    } else if plan.Ok? {
      OtherPlansSpareDescriptors(s.rows, m, d, Lookup(s.rows.descriptors, d));
    }
    if plan.Ok? {
      RunOnCatalogRow(s, plan.value, d);
    }
  }

  lemma CatalogStreamNext(d: DescriptorKey, ms: seq<Message>)
    requires ms != []
    ensures var m, before := ms[|ms| - 1], FinalCatalogRow(d, CatalogStream(d, ms[..|ms| - 1]));
            FinalCatalogRow(d, CatalogStream(d, ms))
            == if m.OnCatalog? then NextCatalogRow(before, d, m.catalogMessage) else before
  {
    var m, before := ms[|ms| - 1], CatalogStream(d, ms[..|ms| - 1]);
    if m.OnCatalog? && Concerns(d, m.catalogMessage) {
      var stream := CatalogStream(d, ms);
      assert stream[..|stream| - 1] == before;
    } else {
      assert CatalogStream(d, ms) == before;
    }
  }

  lemma {:induction false} RunOfCatalogStream(s: Store, ms: seq<Message>, d: DescriptorKey)
    requires d !in s.rows.descriptors
    ensures Lookup(RunFrom(s, ms).rows.descriptors, d) == FinalCatalogRow(d, CatalogStream(d, ms))
  {
    if ms != [] {
      var before, m := RunFrom(s, ms[..|ms| - 1]), ms[|ms| - 1];
      RunOfCatalogStream(s, ms[..|ms| - 1], d);
      HandledCatalogRow(before, m, d);
      assert RunFrom(s, ms) == Handle(before, m);
      CatalogStreamNext(d, ms);
    }
  }

  /** The stream begins with the publication, its versions do not go back, and only its last message
      takes the descriptor away. */
  predicate CatalogInOrder(d: DescriptorKey, ms: seq<CatalogMessage>) {
    && (forall k :: 0 <= k < |ms| ==> Concerns(d, ms[k]))
    && (forall k :: 0 <= k < |ms| - 1 ==> !Removes(d, ms[k]))
    && (ms != [] ==> ms[0].kind.DescriptorPublication? && MessageKey(ms[0]) == d)
    && (forall i, k :: 0 <= i < k < |ms| ==> ms[i].version <= ms[k].version)
  }

  function Shown(d: DescriptorKey, m: CatalogMessage): Descriptor
    requires Concerns(d, m)
  {
    FindDescriptor(m.eservice.descriptors, m.descriptor).value
  }

  /** The descriptor state of the last message that is not about quotas alone. */
  function StateShown(d: DescriptorKey, ms: seq<CatalogMessage>): DescriptorState
    requires CatalogInOrder(d, ms) && ms != []
  {
    var before, last := ms[..|ms| - 1], ms[|ms| - 1];
    if last.kind.QuotasUpdate? && before != [] then
      assert CatalogInOrder(d, before);
      StateShown(d, before)
    else Shown(d, last).state
  }

  /** The voucher lifespan of the last quotas message, or of the first publication. */
  function LifespanShown(d: DescriptorKey, ms: seq<CatalogMessage>): int
    requires CatalogInOrder(d, ms) && ms != []
  {
    var before, last := ms[..|ms| - 1], ms[|ms| - 1];
    if last.kind.QuotasUpdate? || before == [] then Shown(d, last).voucherLifespan
    else
      assert CatalogInOrder(d, before);
      LifespanShown(d, before)
  }

  lemma CatalogInOrderPrefix(d: DescriptorKey, ms: seq<CatalogMessage>)
    requires CatalogInOrder(d, ms) && ms != []
    ensures CatalogInOrder(d, ms[..|ms| - 1])
  {
    var before := ms[..|ms| - 1];
    assert forall k :: 0 <= k < |before| ==> before[k] == ms[k];
  }

  /** One message more, which is not older than the row. */
  lemma CatalogRowNext(row: Option<CatalogRow>, d: DescriptorKey, m: CatalogMessage)
    requires Concerns(d, m) && (row.Some? ==> row.value.version <= m.version)
    requires row.None? ==> m.kind.DescriptorPublication? && MessageKey(m) == d
    ensures var next, x := NextCatalogRow(row, d, m), Shown(d, m);
            && (next.None? <==> Removes(d, m))
            && (next.Some? ==>
                  && next.value.version <= m.version
                  && next.value.state == (if m.kind.QuotasUpdate? then row.value.state
                                          else DescriptorItemState(x.state))
                  && next.value.lifespan == if row.None? || m.kind.QuotasUpdate? then x.voucherLifespan
                       else row.value.lifespan)
  {
  }

  /** The catalog row shows the stream: gone once the descriptor is archived or retired, else the last
      state and the last lifespan. */
  lemma {:induction false} CatalogRowShowsLast(d: DescriptorKey, ms: seq<CatalogMessage>)
    requires CatalogInOrder(d, ms) && ms != []
    ensures var last, row := ms[|ms| - 1], FinalCatalogRow(d, ms);
            && (row.None? <==> Removes(d, last))
            && (row.Some? ==>
                  && (row.value.state == ACTIVE <==> StateShown(d, ms) in {Published, Deprecated})
                  && row.value.lifespan == LifespanShown(d, ms) && row.value.version <= last.version)
  {
    var before, last := ms[..|ms| - 1], ms[|ms| - 1];
    if before != [] {
      CatalogInOrderPrefix(d, ms);
      CatalogRowShowsLast(d, before);
      CatalogRowNext(FinalCatalogRow(d, before), d, last);
      assert before[|before| - 1] == ms[|ms| - 2];
      assert !Removes(d, ms[|ms| - 2]);
    }
  }

  /* ---- the gate against the streams ---- */

  /** In-order delivery of the streams that matter to one purpose, its agreement and its descriptor, the
      agreement having been activated or upgraded. */
  ghost predicate Delivered(f: AgreementConfluence.Facts, p: PurposeId, k: AgreementKey, i: nat, ms: seq<Message>) {
    var purposes, agreements := PurposeStream(p, ms), AgreementConfluence.StreamOf(k, ms);
    && purposes != [] && PurposeInOrder(purposes)
    && AgreementConfluence.AllKnown(f, agreements) && AgreementConfluence.DistinctTimestamps(f)
    && AgreementConfluence.InOrder(agreements)
    && AgreementConfluence.Wins(f, agreements, i) && AgreementConfluence.Raised(agreements, agreements[i].agreement.id)
    && var d := DescriptorKey(k.eservice, agreements[i].agreement.descriptor);
       var catalog := CatalogStream(d, ms);
       catalog != [] && CatalogInOrder(d, catalog) && !Removes(d, catalog[|catalog| - 1])
  }

  lemma DeliveredPurpose(f: AgreementConfluence.Facts, j: Journal, ms: seq<Message>, p: PurposeId, k: AgreementKey,
                         i: nat)
    requires Delivered(f, p, k, i, ms) && !PurposeStream(p, ms)[|PurposeStream(p, ms)| - 1].kind.PurposeArchival?
    requires forall m :: m in ms ==> Admissible(j, m)
    ensures var purposes := RunFrom(EMPTY_STORE, ms).rows.purposes;
            && p in purposes && AgreementKey(purposes[p].consumer, purposes[p].eservice) == j.home(p)
            && purposes[p].state == PurposeState(PurposeStream(p, ms)[|PurposeStream(p, ms)| - 1].purpose.versions)
  {
    RunOfPurposeStream(EMPTY_STORE, ms, p);
    PurposeRowShowsLast(PurposeStream(p, ms));
    ViewCoherence(j, EMPTY_STORE, ms);
    assert PurposeRowCoherent(j, p, RunFrom(EMPTY_STORE, ms).rows.purposes[p]);
  }

  lemma DeliveredAgreement(f: AgreementConfluence.Facts, ms: seq<Message>, p: PurposeId, k: AgreementKey, i: nat,
                           a: Agreement)
    requires Delivered(f, p, k, i, ms) && a == AgreementConfluence.StreamOf(k, ms)[i].agreement
    ensures var agreements := RunFrom(EMPTY_STORE, ms).rows.agreements;
            k in agreements && agreements[k].state == AgreementItemState(a.state)
              && agreements[k].descriptor == a.descriptor
  {
    AgreementConfluence.RunOfStream(EMPTY_STORE, ms, k);
    AgreementConfluence.GreatestTimestampWins(f, AgreementConfluence.StreamOf(k, ms), i);
  }

  lemma LastDescriptorShown(ms: seq<Message>, d: DescriptorKey, catalog: seq<CatalogMessage>)
    requires catalog == CatalogStream(d, ms) && catalog != [] && CatalogInOrder(d, catalog)
    requires !Removes(d, catalog[|catalog| - 1])
    ensures var descriptors := RunFrom(EMPTY_STORE, ms).rows.descriptors;
            d in descriptors && descriptors[d].state == DescriptorItemState(StateShown(d, catalog))
  {
    RunOfCatalogStream(EMPTY_STORE, ms, d);
    CatalogRowShowsLast(d, catalog);
  }

  lemma DeliveredDescriptor(f: AgreementConfluence.Facts, ms: seq<Message>, p: PurposeId, k: AgreementKey, i: nat,
                            d: DescriptorKey)
    requires Delivered(f, p, k, i, ms)
    requires d == DescriptorKey(k.eservice, AgreementConfluence.StreamOf(k, ms)[i].agreement.descriptor)
    ensures var descriptors := RunFrom(EMPTY_STORE, ms).rows.descriptors;
            d in descriptors && descriptors[d].state == DescriptorItemState(StateShown(d, CatalogStream(d, ms)))
  {
    LastDescriptorShown(ms, d, CatalogStream(d, ms));
  }

  lemma RetrieveThrough(s: Rows, p: PurposeId, k: AgreementKey, d: DescriptorKey)
    requires p in s.purposes && AgreementKey(s.purposes[p].consumer, s.purposes[p].eservice) == k
    requires k in s.agreements && d == DescriptorKey(k.eservice, s.agreements[k].descriptor) && d in s.descriptors
    ensures Retrieve(s, p) == Retrieved(Some(s.purposes[p]), Some(s.agreements[k]), Some(s.descriptors[d]))
  {
  }

  /** The three rows that a purpose with such streams leads to. */
  predicate RowsShow(s: Rows, p: PurposeId, versions: seq<PurposeVersion>, agreement: AgreementState,
                     descriptor: DescriptorState)
  {
    var r := Retrieve(s, p);
    && r.catalog.Some? && r.purpose.value.state == PurposeState(versions)
    && r.agreement.value.state == AgreementItemState(agreement)
    && r.catalog.value.state == DescriptorItemState(descriptor)
  }

  lemma ShowThrough(s: Rows, p: PurposeId, k: AgreementKey, d: DescriptorKey, versions: seq<PurposeVersion>,
                    a: Agreement, descriptor: DescriptorState)
    requires p in s.purposes && AgreementKey(s.purposes[p].consumer, s.purposes[p].eservice) == k
    requires s.purposes[p].state == PurposeState(versions)
    requires k in s.agreements && s.agreements[k].state == AgreementItemState(a.state)
    requires d == DescriptorKey(k.eservice, a.descriptor) && s.agreements[k].descriptor == a.descriptor
    requires d in s.descriptors && s.descriptors[d].state == DescriptorItemState(descriptor)
    ensures RowsShow(s, p, versions, a.state, descriptor)
  {
    RetrieveThrough(s, p, k, d);
  }

  lemma DeliveredRows(f: AgreementConfluence.Facts, j: Journal, ms: seq<Message>, p: PurposeId, k: AgreementKey, i: nat,
                      a: Agreement, d: DescriptorKey)
    requires Delivered(f, p, k, i, ms) && k == j.home(p)
    requires a == AgreementConfluence.StreamOf(k, ms)[i].agreement && d == DescriptorKey(k.eservice, a.descriptor)
    requires forall m :: m in ms ==> Admissible(j, m)
    requires !PurposeStream(p, ms)[|PurposeStream(p, ms)| - 1].kind.PurposeArchival?
    ensures RowsShow(RunFrom(EMPTY_STORE, ms).rows, p,
                     PurposeStream(p, ms)[|PurposeStream(p, ms)| - 1].purpose.versions, a.state,
                     StateShown(d, CatalogStream(d, ms)))
  {
    var s, versions := RunFrom(EMPTY_STORE, ms).rows, PurposeStream(p, ms)[|PurposeStream(p, ms)| - 1].purpose.versions;
    var state := StateShown(d, CatalogStream(d, ms));
    DeliveredPurpose(f, j, ms, p, k, i);
    DeliveredAgreement(f, ms, p, k, i, a);
    DeliveredDescriptor(f, ms, p, k, i, d);
    ShowThrough(s, p, k, d, versions, a, state);
  }

  /** End to end.  The gate accepts the entry of a purpose that is not archived exactly when the last
      purpose message has an active version, the agreement with the greatest timestamp is active, and
      its descriptor was last seen published or deprecated. */
  lemma GateFollowsEvents(f: AgreementConfluence.Facts, j: Journal, ms: seq<Message>, pk: TokenKey, i: nat)
    requires forall m :: m in ms ==> Admissible(j, m)
    requires pk.ClientKidPurpose? && Delivered(f, pk.purpose, j.home(pk.purpose), i, ms)
    requires !PurposeStream(pk.purpose, ms)[|PurposeStream(pk.purpose, ms)| - 1].kind.PurposeArchival?
    requires pk in RunFrom(EMPTY_STORE, ms).tokens && RunFrom(EMPTY_STORE, ms).tokens[pk].ConsumerEntry?
    ensures var k := j.home(pk.purpose);
            var purpose, agreement := PurposeStream(pk.purpose, ms)[|PurposeStream(pk.purpose, ms)| - 1],
              AgreementConfluence.StreamOf(k, ms)[i].agreement;
            var d := DescriptorKey(k.eservice, agreement.descriptor);
            var state := StateShown(d, CatalogStream(d, ms));
            Gate.Validate(RunFrom(EMPTY_STORE, ms).tokens[pk], true).Successful?
            <==> (exists v :: v in purpose.purpose.versions && v.state == ActiveVersion)
                 && agreement.state == Active
                 && (state == Published || state == Deprecated)
  {
    var k := j.home(pk.purpose);
    var a := AgreementConfluence.StreamOf(k, ms)[i].agreement;
    DeliveredRows(f, j, ms, pk.purpose, k, i, a, DescriptorKey(k.eservice, a.descriptor));
    Gate.GateExactness(j, EMPTY_STORE, ms, pk);
  }

  /** An archived purpose has no row, and the gate is shut. */
  lemma GateShutsAfterArchival(j: Journal, ms: seq<Message>, pk: TokenKey)
    requires forall m :: m in ms ==> Admissible(j, m)
    requires pk.ClientKidPurpose? && PurposeInOrder(PurposeStream(pk.purpose, ms))
             && PurposeStream(pk.purpose, ms) != []
    requires PurposeStream(pk.purpose, ms)[|PurposeStream(pk.purpose, ms)| - 1].kind.PurposeArchival?
    requires pk in RunFrom(EMPTY_STORE, ms).tokens && RunFrom(EMPTY_STORE, ms).tokens[pk].ConsumerEntry?
    ensures !Gate.Validate(RunFrom(EMPTY_STORE, ms).tokens[pk], true).Successful?
  {
    var s1 := RunFrom(EMPTY_STORE, ms);
    RunOfPurposeStream(EMPTY_STORE, ms, pk.purpose);
    PurposeRowShowsLast(PurposeStream(pk.purpose, ms));
    ViewCoherence(j, EMPTY_STORE, ms);
    assert EntryCoherent(j, s1.rows, pk, s1.tokens[pk]);
    Gate.ValidationIsExact(s1.tokens[pk], true);
  }
}
