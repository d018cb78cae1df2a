/** At-least-once delivery: the offset is committed after the handler returns, so a crashed attempt
    is followed by further attempts at the same message until one completes. */
module CrashConvergence {
  import opened Wrappers
  import opened Domain
  import opened Tables
  import opened Effects
  import opened PurposeWriter
  import opened AgreementWriter
  import opened CatalogWriter
  import opened AuthorizationWriter
  import opened Platform
  import opened Coherence

  /** One attempt that crashes somewhere. */
  function Crash(s: Store, m: Message, cut: Cut): Store {
    match PlanFor(s.rows, m)
    case Ok(p) => RunPart(s, p, cut)
    case Err(_) => s
  }

  /** Any number of crashed attempts, one after the other. */
  function Crashes(s: Store, m: Message, cuts: seq<Cut>): Store
    decreases |cuts|
  {
    if cuts == [] then s else Crashes(Crash(s, m, cuts[0]), m, cuts[1..])
  }

  /** Descriptors of one e-service with different versions have different ids. */
  predicate DistinctDescriptors(m: CatalogMessage) {
    forall d, e :: d in m.eservice.descriptors && e in m.eservice.descriptors && d.version != e.version ==> d.id != e.id
  }

  predicate Retriable(m: Message) {
    m.OnCatalog? ==> !m.catalogMessage.kind.QuotasUpdate? && DistinctDescriptors(m.catalogMessage)
  }

  /* ---- a repeated plan absorbs what is left of a crashed one ---- */

  predicate RowsAbsorb(s: Rows, p: Plan, cut: Cut) {
    RunRows(PartRows(s, p, cut), p) == RunRows(s, p)
  }

  predicate TokensAbsorb(t: Tokens, p: Plan, cut: Cut) {
    RunTokens(PartTokens(t, p, cut), p) == RunTokens(t, p)
  }

  function RunRows(s: Rows, p: Plan): Rows {
    OnRows(OnRows(OnRows(OnRows(s, p.first), p.second), p.third), p.fourth)
  }

  function RunTokens(t: Tokens, p: Plan): Tokens {
    OnTokens(OnTokens(OnTokens(OnTokens(t, p.first), p.second), p.third), p.fourth)
  }

  function OnRowsPart(s: Rows, f: Effect, row: bool): Rows {
    if row then OnRows(s, f) else s
  }

  function PartRows(s: Rows, p: Plan, cut: Cut): Rows {
    OnRowsPart(OnRowsPart(OnRowsPart(OnRowsPart(s, p.first, cut.first.row), p.second, cut.second.row), p.third,
                          cut.third.row),
               p.fourth, cut.fourth.row)
  }

  function PartTokens(t: Tokens, p: Plan, cut: Cut): Tokens {
    OnTokensPart(OnTokensPart(OnTokensPart(OnTokensPart(t, p.first, cut.first.keys), p.second, cut.second.keys),
                              p.third, cut.third.keys),
                 p.fourth, cut.fourth.keys)
  }

  /** The two tables absorb separately. */
  lemma Absorption(s: Store, p: Plan, cut: Cut)
    requires RowsAbsorb(s.rows, p, cut) && TokensAbsorb(s.tokens, p, cut)
    ensures Run(RunPart(s, p, cut), p) == Run(s, p)
    ensures RunPart(s, p, cut).rows == PartRows(s.rows, p, cut)
  {
  }

  lemma RowTwice(s: Rows, f: Effect, row: bool)
    ensures OnRows(OnRowsPart(s, f, row), f) == OnRows(s, f)
  {
    match f
    case PutPurpose(p, r) => assert s.purposes[p := r][p := r] == s.purposes[p := r];
    case DropPurpose(p) => assert s.purposes - {p} - {p} == s.purposes - {p};
    case PutAgreement(k, r) => assert s.agreements[k := r][k := r] == s.agreements[k := r];
    case PutDescriptor(d, r) => assert s.descriptors[d := r][d := r] == s.descriptors[d := r];
    case DropDescriptor(d) => assert s.descriptors - {d} - {d} == s.descriptors - {d};
    case PutClient(c, r) => assert s.clients[c := r][c := r] == s.clients[c := r];
    case DropClient(c) => assert s.clients - {c} - {c} == s.clients - {c};
    case _ =>
  }

  predicate IsTokenEffect(f: Effect) {
    f.Nothing? || f.PutTokens? || f.DropTokens? || f.PatchTokens?
  }

  /** With one row write in the plan, wherever it stands. */
  lemma SingleRowAbsorbs(s: Rows, p: Plan, cut: Cut)
    requires IsTokenEffect(p.third) && IsTokenEffect(p.fourth)
    requires IsTokenEffect(p.first) || IsTokenEffect(p.second)
    ensures RowsAbsorb(s, p, cut)
  {
    RowTwice(s, p.first, cut.first.row);
    RowTwice(s, p.second, cut.second.row);
  }

  lemma PatchAbsorbs(patch: Patch, t: Tokens, keys: set<TokenKey>)
    ensures PatchAll(patch, PatchSome(patch, t, keys)) == PatchAll(patch, t)
  {
    forall pk | pk in t
      ensures PatchAll(patch, PatchSome(patch, t, keys))[pk] == PatchAll(patch, t)[pk]
    {
      PatchIdempotent(patch, pk, t[pk]);
    }
  }

  /** One entry under two propagations to different descriptors. */
  lemma EntryUnderTwoPatches(p1: Patch, p2: Patch, pk: TokenKey, e: TokenEntry)
    requires p1.DescriptorInfoPatch? && p2.DescriptorStatePatch? && p1.descriptorKey != p2.descriptorKey
    ensures PatchedAt(p2, pk, PatchedAt(p1, pk, PatchedAt(p1, pk, e))) == PatchedAt(p2, pk, PatchedAt(p1, pk, e))
    ensures PatchedAt(p2, pk, PatchedAt(p1, pk, PatchedAt(p2, pk, PatchedAt(p1, pk, e))))
            == PatchedAt(p2, pk, PatchedAt(p1, pk, e))
    ensures PatchedAt(p2, pk, PatchedAt(p1, pk, PatchedAt(p2, pk, e))) == PatchedAt(p2, pk, PatchedAt(p1, pk, e))
  {
  }

  lemma TwoPatchesAbsorb(p1: Patch, p2: Patch, t: Tokens, keys1: set<TokenKey>, keys2: set<TokenKey>)
    requires p1.DescriptorInfoPatch? && p2.DescriptorStatePatch? && p1.descriptorKey != p2.descriptorKey
    ensures PatchAll(p2, PatchAll(p1, PatchSome(p2, PatchSome(p1, t, keys1), keys2))) == PatchAll(p2, PatchAll(p1, t))
  {
    forall pk | pk in t
      ensures PatchAll(p2, PatchAll(p1, PatchSome(p2, PatchSome(p1, t, keys1), keys2)))[pk]
              == PatchAll(p2, PatchAll(p1, t))[pk]
    {
      EntryUnderTwoPatches(p1, p2, pk, t[pk]);
    }
  }

  lemma TwoRowsAbsorb(s: Rows, d1: DescriptorKey, row: CatalogRow, d2: DescriptorKey, cut: Cut)
    requires d1 != d2
    ensures var a, b := PutDescriptor(d1, row), DropDescriptor(d2);
            OnRows(OnRows(OnRowsPart(OnRowsPart(s, a, cut.first.row), b, cut.third.row), a), b)
              == OnRows(OnRows(s, a), b)
  {
    var a, b := PutDescriptor(d1, row), DropDescriptor(d2);
    var left := OnRows(OnRows(OnRowsPart(OnRowsPart(s, a, cut.first.row), b, cut.third.row), a), b);
    assert left.descriptors == OnRows(OnRows(s, a), b).descriptors;
  }

  lemma PublicationRowsAbsorb(s: Rows, m: CatalogMessage, d: Descriptor, cut: Cut)
    requires DistinctDescriptors(m) && d in m.eservice.descriptors
    ensures RowsAbsorb(s, PublicationPlan(s, m, d), cut)
  {
    var c, q := CurrentPlan(s, m, d), PreviousPlan(m, d);
    if c.0 == Nothing {
      RowTwice(s, q.0, cut.third.row);
    } else if q.0 == Nothing {
      RowTwice(s, c.0, cut.first.row);
    } else {
      TwoRowsAbsorb(s, c.0.descriptor, c.0.catalogRow, q.0.descriptor, cut);
    }
  }

  lemma PublicationTokensAbsorb(s: Rows, t: Tokens, m: CatalogMessage, d: Descriptor, cut: Cut)
    requires DistinctDescriptors(m) && d in m.eservice.descriptors
    ensures TokensAbsorb(t, PublicationPlan(s, m, d), cut)
  {
    var c, q := CurrentPlan(s, m, d), PreviousPlan(m, d);
    if c.0 == Nothing {
      if q.0 != Nothing {
        PatchAbsorbs(q.1.patch, t, cut.fourth.keys);
      }
    } else if q.0 == Nothing {
      PatchAbsorbs(c.1.patch, t, cut.second.keys);
    } else {
      TwoPatchesAbsorb(c.1.patch, q.1.patch, t, cut.second.keys, cut.fourth.keys);
    }
  }

  function PublicationPlan(s: Rows, m: CatalogMessage, d: Descriptor): Plan {
    var c, q := CurrentPlan(s, m, d), PreviousPlan(m, d);
    Plan(c.0, c.1, q.0, q.1)
  }

  ghost predicate AgreeOutside(t: Tokens, t1: Tokens, keys: set<TokenKey>) {
    && (forall pk :: pk !in keys ==> (pk in t <==> pk in t1))
    && (forall pk :: pk in t && pk in t1 && pk !in keys ==> t[pk] == t1[pk])
  }

  function Footprint(f: Effect): set<TokenKey> {
    match f
    case PutTokens(entries) => entries.Keys
    case DropTokens(keys) => keys
    case _ => {}
  }

  lemma PartStaysInFootprint(t: Tokens, f: Effect, keys: set<TokenKey>, touched: set<TokenKey>)
    requires !f.PatchTokens? && Footprint(f) <= touched
    ensures AgreeOutside(t, OnTokensPart(t, f, keys), touched)
  {
  }

  /** A full pass over the footprint overwrites whatever differs there. */
  lemma OverwriteForgets(t: Tokens, t1: Tokens, put: map<TokenKey, TokenEntry>, dropped: set<TokenKey>,
                         again: map<TokenKey, TokenEntry>)
    requires put.Keys == again.Keys && AgreeOutside(t, t1, put.Keys + dropped)
    ensures t1 + put - dropped + again == t + put - dropped + again
  {
    var left, right := t1 + put - dropped + again, t + put - dropped + again;
    assert left.Keys == right.Keys;
  }

  lemma PutForgets(t: Tokens, t1: Tokens, put: map<TokenKey, TokenEntry>)
    requires AgreeOutside(t, t1, put.Keys)
    ensures t1 + put == t + put
  {
    assert (t1 + put).Keys == (t + put).Keys;
  }

  lemma DropForgets(t: Tokens, t1: Tokens, dropped: set<TokenKey>)
    requires AgreeOutside(t, t1, dropped)
    ensures t1 - dropped == t - dropped
  {
    assert (t1 - dropped).Keys == (t - dropped).Keys;
  }

  predicate IsClientPlan(p: Plan) {
    && (p.first.PutClient? || p.first.DropClient?)
    && (p.second.PutTokens? || p.second.DropTokens?)
    && (p.third.PutTokens? ==>
        p.second.PutTokens? && p.third.entries.Keys == p.second.entries.Keys && p.fourth.Nothing?)
    && (p.third.DropTokens? ==>
        p.second.PutTokens? && p.fourth.PutTokens? && p.fourth.entries.Keys == p.second.entries.Keys)
    && (p.third.Nothing? ==> p.fourth.Nothing?)
    && (p.third.PutTokens? || p.third.DropTokens? || p.third.Nothing?)
  }

  lemma ClientPlanAgrees(t: Tokens, p: Plan, cut: Cut)
    requires IsClientPlan(p)
    ensures AgreeOutside(t, PartTokens(t, p, cut), Footprint(p.second) + Footprint(p.third))
  {
    var touched := Footprint(p.second) + Footprint(p.third);
    var t2 := OnTokensPart(t, p.second, cut.second.keys);
    var t3 := OnTokensPart(t2, p.third, cut.third.keys);
    PartStaysInFootprint(t, p.second, cut.second.keys, touched);
    PartStaysInFootprint(t2, p.third, cut.third.keys, touched);
    PartStaysInFootprint(t3, p.fourth, cut.fourth.keys, touched);
  }

  lemma ClientPlanAbsorbs(t: Tokens, p: Plan, cut: Cut)
    requires IsClientPlan(p)
    ensures TokensAbsorb(t, p, cut)
  {
    var t1 := PartTokens(t, p, cut);
    ClientPlanAgrees(t, p, cut);
    if p.third.DropTokens? {
      OverwriteForgets(t, t1, p.second.entries, p.third.keys, p.fourth.entries);
    } else if p.second.PutTokens? {
      assert Footprint(p.second) + Footprint(p.third) == p.second.entries.Keys;
      PutForgets(t, t1, p.second.entries);
    } else {
      assert Footprint(p.second) + Footprint(p.third) == p.second.keys;
      DropForgets(t, t1, p.second.keys);
    }
  }

  /* ---- the next attempt makes the same plan ---- */

  lemma PurposePlanStable(s: Rows, m: PurposeMessage, f: Effect, written: bool)
    requires PurposeWriter.PlanOf(s, m).Ok? && f == PurposeWriter.PlanOf(s, m).value.first
    ensures PurposeWriter.PlanOf(OnRowsPart(s, f, written), m) == PurposeWriter.PlanOf(s, m)
  {
  }

  /** A plan that writes one row, then propagates it. */
  predicate IsRowThenPatch(p: Plan) {
    !IsTokenEffect(p.first) && p.second.PatchTokens? && p.third.Nothing? && p.fourth.Nothing?
  }

  lemma RowThenPatchAbsorbs(s: Store, p: Plan, cut: Cut)
    requires IsRowThenPatch(p)
    ensures Run(RunPart(s, p, cut), p) == Run(s, p)
    ensures RunPart(s, p, cut).rows == OnRowsPart(s.rows, p.first, cut.first.row)
  {
    SingleRowAbsorbs(s.rows, p, cut);
    PatchAbsorbs(p.second.patch, s.tokens, cut.second.keys);
    Absorption(s, p, cut);
  }

  lemma PurposeRetry(s: Store, m: PurposeMessage, cut: Cut)
    ensures Handle(Crash(s, OnPurpose(m), cut), OnPurpose(m)) == Handle(s, OnPurpose(m))
  {
    var plan := PurposeWriter.PlanOf(s.rows, m);
    if plan.Ok? && plan.value != SKIP {
      RowThenPatchAbsorbs(s, plan.value, cut);
      PurposePlanStable(s.rows, m, plan.value.first, cut.first.row);
    }
  }

  lemma AgreementPlanStable(s: Rows, m: AgreementMessage, written: bool)
    requires AgreementWriter.PlanOf(s, m).Ok? && !m.kind.ConsumerArchival?
    ensures AgreementWriter.PlanOf(OnRowsPart(s, AgreementWriter.PlanOf(s, m).value.first, written), m)
            == AgreementWriter.PlanOf(s, m)
  {
  }

  lemma ArchivalPlanStable(s: Rows, m: AgreementMessage, written: bool)
    requires AgreementWriter.PlanOf(s, m).Ok? && m.kind.ConsumerArchival?
    ensures AgreementWriter.PlanOf(OnRowsPart(s, AgreementWriter.PlanOf(s, m).value.second, written), m)
            == AgreementWriter.PlanOf(s, m)
  {
  }

  lemma AgreementRetry(s: Store, m: AgreementMessage, cut: Cut)
    ensures Handle(Crash(s, OnAgreement(m), cut), OnAgreement(m)) == Handle(s, OnAgreement(m))
  {
    var plan := AgreementWriter.PlanOf(s.rows, m);
    if plan.Ok? && plan.value != SKIP {
      var p := plan.value;
      if m.kind.ConsumerArchival? {
        SingleRowAbsorbs(s.rows, p, cut);
        PatchAbsorbs(p.first.patch, s.tokens, cut.first.keys);
        Absorption(s, p, cut);
        ArchivalPlanStable(s.rows, m, cut.second.row);
      } else {
        RowThenPatchAbsorbs(s, p, cut);
        AgreementPlanStable(s.rows, m, cut.first.row);
      }
    }
  }

  lemma PublicationPlanStable(s: Rows, m: CatalogMessage, d: Descriptor, cut: Cut)
    requires DistinctDescriptors(m) && d in m.eservice.descriptors
    ensures CurrentPlan(PartRows(s, PublicationPlan(s, m, d), cut), m, d) == CurrentPlan(s, m, d)
  {
  }

  lemma CatalogRetry(s: Store, m: CatalogMessage, cut: Cut)
    requires Retriable(OnCatalog(m))
    ensures Handle(Crash(s, OnCatalog(m), cut), OnCatalog(m)) == Handle(s, OnCatalog(m))
  {
    var plan := CatalogWriter.PlanOf(s.rows, m);
    if plan.Ok? && plan.value != SKIP {
      var d, p := FindDescriptor(m.eservice.descriptors, m.descriptor).value, plan.value;
      if m.kind.DescriptorPublication? {
        PublicationRowsAbsorb(s.rows, m, d, cut);
        PublicationTokensAbsorb(s.rows, s.tokens, m, d, cut);
        PublicationPlanStable(s.rows, m, d, cut);
        Absorption(s, p, cut);
      } else {
        RowThenPatchAbsorbs(s, p, cut);
        assert CatalogWriter.PlanOf(OnRowsPart(s.rows, p.first, cut.first.row), m) == plan;
      }
    }
  }

  /** A client message plans from rows that its own crashes leave alone, its client row aside. */
  lemma ClientPlanStable(s: Rows, m: ClientMessage, row: ClientRow, written: bool)
    requires AuthorizationWriter.PlanOf(s, m).Ok?
             && AuthorizationWriter.PlanOf(s, m).value.first == PutClient(m.client.id, row)
    ensures AuthorizationWriter.PlanOf(OnRowsPart(s, PutClient(m.client.id, row), written), m)
            == AuthorizationWriter.PlanOf(s, m)
  {
    var s1 := OnRowsPart(s, PutClient(m.client.id, row), written);
    assert forall p :: Retrieve(s1, p) == Retrieve(s, p);
    if m.kind.ClientKeyAdded? {
      var pem, ps := FirstPem(m.client.keys, m.kind.kid).value, PurposeSet(m.client.purposes);
      assert KeyEntries(s1, m.client, m.kind.kid, pem, ps) == KeyEntries(s, m.client, m.kind.kid, pem, ps);
      assert RecheckedKeyEntries(s1, m.client, m.kind.kid, pem, ps)
             == RecheckedKeyEntries(s, m.client, m.kind.kid, pem, ps);
    } else if m.kind.ClientPurposeAdded? {
      var p, kids := m.kind.purpose, Kids(m.client.keys);
      assert PurposeEntries(s1, m.client, p, kids) == PurposeEntries(s, m.client, p, kids);
      assert RecheckedPurposeEntries(s1, m.client, p, kids) == RecheckedPurposeEntries(s, m.client, p, kids);
    }
  }

  lemma ClientRetry(s: Store, m: ClientMessage, cut: Cut)
    ensures Handle(Crash(s, OnClient(m), cut), OnClient(m)) == Handle(s, OnClient(m))
  {
    var plan := AuthorizationWriter.PlanOf(s.rows, m);
    if plan.Ok? && plan.value != SKIP {
      SingleRowAbsorbs(s.rows, plan.value, cut);
      assert IsClientPlan(plan.value);
      ClientPlanAbsorbs(s.tokens, plan.value, cut);
      Absorption(s, plan.value, cut);
      if plan.value.first.PutClient? {
        ClientPlanStable(s.rows, m, plan.value.first.clientRow, cut.first.row);
      }
    }
  }

  /** Crash convergence: whatever any number of crashed attempts left behind, one full attempt ends
      in the state that a single full attempt would have reached. */
  lemma {:induction false} CrashConvergence(s: Store, m: Message, cuts: seq<Cut>)
    requires Retriable(m)
    decreases |cuts|
    ensures Handle(Crashes(s, m, cuts), m) == Handle(s, m)
  {
    if cuts != [] {
      CrashConvergence(Crash(s, m, cuts[0]), m, cuts[1..]);
      match m
      case OnPurpose(pm) => PurposeRetry(s, pm, cuts[0]);
      case OnAgreement(am) => AgreementRetry(s, am, cuts[0]);
      case OnCatalog(cm) => CatalogRetry(s, cm, cuts[0]);
      case OnClient(cm) => ClientRetry(s, cm, cuts[0]);
    }
  }

  lemma QuotasPlan(s: Rows, m: CatalogMessage)
    requires m.kind.QuotasUpdate? && CatalogWriter.PlanOf(s, m).Ok? && CatalogWriter.PlanOf(s, m).value != SKIP
    ensures var p := CatalogWriter.PlanOf(s, m).value;
            && p.first.PutDescriptor? && p.second.PatchTokens? && p.second.patch.LifespanPatch?
            && p.third == p.fourth == Nothing
            && CatalogWriter.PlanOf(OnRows(s, p.first), m) == Ok(SKIP)
  {
  }

  /** An attempt that stops after its row write. */
  function RowOnly(): Cut {
    var nowhere := Extent(false, {});
    Cut(Extent(true, {}), nowhere, nowhere, nowhere)
  }

  lemma RowOnlyWritesTheRow(s: Store, p: Plan)
    requires p.first.PutDescriptor? && p.second.PatchTokens? && p.third == p.fourth == Nothing
    ensures RunPart(s, p, RowOnly()) == Apply(s, p.first)
  {
    assert PatchSome(p.second.patch, s.tokens, {}) == s.tokens;
  }

  /** The retry after that finds nothing to do, and the entries keep the earlier lifespan. */
  lemma LifespanIsLost(s: Store, m: CatalogMessage)
    requires m.kind.QuotasUpdate? && !NoEntryAwaitsLifespan(s, m)
    ensures Handle(Crash(s, OnCatalog(m), RowOnly()), OnCatalog(m)) != Handle(s, OnCatalog(m))
  {
    var plan := CatalogWriter.PlanOf(s.rows, m);
    QuotasPlan(s.rows, m);
    RowOnlyWritesTheRow(s, plan.value);
    assert Handle(Apply(s, plan.value.first), OnCatalog(m)) == Apply(s, plan.value.first);
    var patch := plan.value.second.patch;
    var pk :| pk in s.tokens && Selects(patch, pk, s.tokens[pk]) && s.tokens[pk].lifespan != Some(patch.lifespan);
    assert Handle(s, OnCatalog(m)).tokens[pk].lifespan == Some(patch.lifespan);
  }

  /* ---- whole runs with crashes ---- */

  /** A message, the attempts at it that crashed, and then the one that did not. */
  datatype Delivery = Delivery(message: Message, crashed: seq<Cut>)

  function Consume(s: Store, ds: seq<Delivery>): Store {
    if ds == [] then s
    else
      var d := ds[|ds| - 1];
      Handle(Crashes(Consume(s, ds[..|ds| - 1]), d.message, d.crashed), d.message)
  }

  function MessagesOf(ds: seq<Delivery>): seq<Message> {
    seq(|ds|, i requires 0 <= i < |ds| => ds[i].message)
  }

  predicate Converges(d: Delivery) {
    d.crashed == [] || Retriable(d.message)
  }

  /** A run with crashes ends where the run without them ends... */
  lemma {:induction false} CrashesLeaveNoTrace(s: Store, ds: seq<Delivery>)
    requires forall d :: d in ds ==> Converges(d)
    ensures Consume(s, ds) == RunFrom(s, MessagesOf(ds))
  {
    if ds != [] {
      var before, d := ds[..|ds| - 1], ds[|ds| - 1];
      CrashesLeaveNoTrace(s, before);
      assert MessagesOf(ds)[..|before|] == MessagesOf(before);
      assert Converges(d);
      if d.crashed != [] {
        CrashConvergence(Consume(s, before), d.message, d.crashed);
      }
    }
  }

  /** ... and so in a coherent store. */
  lemma CoherenceDespiteCrashes(j: Journal, s: Store, ds: seq<Delivery>)
    requires Coherent(j, s)
    requires forall d :: d in ds ==> Admissible(j, d.message) && Converges(d)
    ensures Coherent(j, Consume(s, ds))
  {
    CrashesLeaveNoTrace(s, ds);
    ViewCoherence(j, s, MessagesOf(ds));
  }

  /* ---- the exception ---- */

  /** The exception, and exactly when it is harmless: a crash between the row write and the
      propagation of a new voucher lifespan is never repaired, since the retry finds the row's
      lifespan unchanged.  All crashes converge just when no entry waits for the new value. */
  lemma QuotasConvergence(s: Store, m: CatalogMessage)
    requires m.kind.QuotasUpdate?
    ensures (forall cut :: Handle(Crash(s, OnCatalog(m), cut), OnCatalog(m)) == Handle(s, OnCatalog(m)))
            <==> NoEntryAwaitsLifespan(s, m)
  {
    var plan := CatalogWriter.PlanOf(s.rows, m);
    if plan.Ok? && plan.value != SKIP {
      var f, patch := plan.value.first, plan.value.second.patch;
      if NoEntryAwaitsLifespan(s, m) {
        forall cut
          ensures Handle(Crash(s, OnCatalog(m), cut), OnCatalog(m)) == Handle(s, OnCatalog(m))
        {
          assert PatchSome(patch, s.tokens, cut.second.keys) == s.tokens == PatchAll(patch, s.tokens);
        }
      } else {
        LifespanIsLost(s, m);
      }
    }
  }

  /** The update is skipped anyway, or every entry it would reach has the new lifespan already. */
  predicate NoEntryAwaitsLifespan(s: Store, m: CatalogMessage) {
    match CatalogWriter.PlanOf(s.rows, m)
    case Err(_) => true
    case Ok(p) =>
      p.second.PatchTokens? && p.second.patch.LifespanPatch? ==>
        forall pk :: pk in s.tokens && Selects(p.second.patch, pk, s.tokens[pk])
                     ==> s.tokens[pk].lifespan == Some(p.second.patch.lifespan)
  }
}
