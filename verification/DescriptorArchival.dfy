/** The gate after a descriptor was archived.  Its row is gone, so that no coherence with a row says any
    more what its entries show. */
module DescriptorArchival {
  import opened Wrappers
  import opened Domain
  import opened Tables
  import opened Effects
  import opened PurposeWriter
  import opened AgreementWriter
  import opened CatalogWriter
  import opened AuthorizationWriter
  import opened Platform
  import opened Coherence
  import opened PlatformTruth
  import opened WriterOutcomes
  import Gate

  /** The message archives the descriptor, or publishes its successor once it is archived. */
  predicate Archives(d: DescriptorKey, m: CatalogMessage) {
    && Concerns(d, m) && Removes(d, m)
    && if m.kind.DescriptorArchival? then Shown(d, m).state == ArchivedDescriptor else MessageKey(m) != d
  }

  predicate IsOn(s: Store, d: DescriptorKey, pk: TokenKey) {
    pk in s.tokens && s.tokens[pk].ConsumerEntry? && s.tokens[pk].descriptorKey == Some(d)
  }

  lemma ArchivalIsEffective(s: Store, m: CatalogMessage, d: DescriptorKey)
    requires Archives(d, m)
    ensures d !in Handle(s, OnCatalog(m)).rows.descriptors
  {
    var shown := Shown(d, m);
    if m.kind.DescriptorArchival? {
      DescriptorArchived(s, m, shown);
    } else {
      PredecessorRow(s, m, shown, d);
    }
  }

  /** Every entry of the descriptor becomes INACTIVE, and the gate is shut on it. */
  lemma ArchivalShutsTheGate(s: Store, m: CatalogMessage, d: DescriptorKey, pk: TokenKey)
    requires Archives(d, m) && IsOn(s, d, pk)
    ensures var s1 := Handle(s, OnCatalog(m));
            && d !in s1.rows.descriptors && IsOn(s1, d, pk) && s1.tokens[pk].descriptorState == Some(INACTIVE)
            && !Gate.Validate(s1.tokens[pk], true).Successful?
  {
    var shown, s1 := Shown(d, m), Handle(s, OnCatalog(m));
    ArchivalIsEffective(s, m, d);
    if m.kind.DescriptorArchival? {
      DescriptorArchived(s, m, shown);
    } else {
      PredecessorEntry(s, m, shown, d, pk);
    }
    Gate.ValidationIsExact(s1.tokens[pk], true);
  }

  /* ---- and it stays shut ---- */

  /** The descriptor has no row, and an entry on it is not ACTIVE. */
  predicate Off(s: Store, d: DescriptorKey, pk: TokenKey) {
    d !in s.rows.descriptors && (IsOn(s, d, pk) ==> s.tokens[pk].descriptorState != Some(ACTIVE))
  }

  /** The entry, while there is one, is on the descriptor. */
  predicate OnlyOn(s: Store, d: DescriptorKey, pk: TokenKey) {
    pk in s.tokens && s.tokens[pk].ConsumerEntry? ==> s.tokens[pk].descriptorKey == Some(d)
  }

  predicate LeavesArchived(d: DescriptorKey, m: Message) {
    m.OnCatalog? && Concerns(d, m.catalogMessage) ==> Archives(d, m.catalogMessage)
  }

  lemma PurposeKeepsOff(s: Store, m: PurposeMessage, d: DescriptorKey, pk: TokenKey)
    requires Off(s, d, pk) && OnlyOn(s, d, pk)
    ensures Off(Handle(s, OnPurpose(m)), d, pk)
  {
  }

  lemma RaisedKeepsOff(s: Store, m: AgreementMessage, t: int, s1: Store, d: DescriptorKey, pk: TokenKey)
    requires Off(s, d, pk) && OnlyOn(s, d, pk) && Raises(s, m, t, s1)
    ensures Off(s1, d, pk)
  {
    assert pk in s1.tokens ==> pk in s.tokens;
  }

  lemma RestatedKeepsOff(s: Store, m: AgreementMessage, s1: Store, d: DescriptorKey, pk: TokenKey)
    requires Off(s, d, pk) && Restates(s, m, s1)
    ensures Off(s1, d, pk)
  {
    assert pk in s1.tokens ==> pk in s.tokens;
  }

  lemma AgreementKeepsOff(s: Store, m: AgreementMessage, s1: Store, d: DescriptorKey, pk: TokenKey)
    requires Off(s, d, pk) && OnlyOn(s, d, pk) && s1 == Handle(s, OnAgreement(m))
    ensures Off(s1, d, pk)
  {
    var t := if m.agreement.stamps.upgrade.Some? then m.agreement.stamps.upgrade.value.when
             else if m.agreement.stamps.activation.Some? then m.agreement.stamps.activation.value.when
             else m.agreement.createdAt;
    match m.kind
    case SuspensionChange =>
      AgreementRestated(s, m, t);
      if s1 != s { RestatedKeepsOff(s, m, s1, d, pk); }
    case ConsumerArchival =>
      AgreementArchived(s, m, t);
      if s1 != s { RestatedKeepsOff(s, m, s1, d, pk); }
    case OtherAgreementEvent => OtherAgreementMessage(s, m);
    case AgreementActivation =>
      AgreementRaised(s, m);
      if s1 != s { RaisedKeepsOff(s, m, m.agreement.stamps.activation.value.when, s1, d, pk); }
    case AgreementUpgrade =>
      AgreementRaised(s, m);
      if s1 != s { RaisedKeepsOff(s, m, m.agreement.stamps.upgrade.value.when, s1, d, pk); }
  }

  lemma OtherPropagationKeepsOff(s: Store, s1: Store, k: DescriptorKey, state: ItemState, d: DescriptorKey,
                                 pk: TokenKey)
    requires Off(s, d, pk) && Propagates(s, s1, k, state) && k != d && d !in s1.rows.descriptors
    ensures Off(s1, d, pk)
  {
    assert pk in s1.tokens ==> pk in s.tokens;
  }

  lemma CatalogKeepsOff(s: Store, m: CatalogMessage, s1: Store, d: DescriptorKey, pk: TokenKey)
    requires Off(s, d, pk) && OnlyOn(s, d, pk) && !Concerns(d, m) && s1 == Handle(s, OnCatalog(m))
    ensures Off(s1, d, pk)
  {
    CatalogMessageFails(s, m);
    var found := FindDescriptor(m.eservice.descriptors, m.descriptor);
    if found.Some? && !m.kind.OtherCatalogEvent? {
      var x := found.value;
      var k := DescriptorKey(m.eservice.id, x.id);
      match m.kind
      case DescriptorStateChange =>
        DescriptorStateChanged(s, m, x);
        if s1 != s { OtherPropagationKeepsOff(s, s1, k, Serves(x), d, pk); }
      case DescriptorArchival =>
        DescriptorArchived(s, m, x);
        OtherPropagationKeepsOff(s, s1, k, Serves(x), d, pk);
      case QuotasUpdate => QuotasUpdated(s, m, x);
      case OtherCatalogEvent =>
      case DescriptorPublication =>
        KeysStay(s, m);
        PredecessorRow(s, m, x, d);
        if IsOn(s, d, pk) { PredecessorEntry(s, m, x, d, pk); }
    }
  }

  /** What is put for the descriptor shows no state of it. */
  predicate PutsOff(f: Effect, d: DescriptorKey, pk: TokenKey) {
    && IsClientEffect(f)
    && (f.PutTokens? && pk in f.entries && f.entries[pk].ConsumerEntry? && f.entries[pk].descriptorKey == Some(d) ==>
          f.entries[pk].descriptorState != Some(ACTIVE))
  }

  lemma PutKeepsOff(s: Store, f: Effect, d: DescriptorKey, pk: TokenKey)
    requires Off(s, d, pk) && PutsOff(f, d, pk)
    ensures Off(Apply(s, f), d, pk)
  {
  }

  lemma JoinedOff(s: Rows, consumer: TenantId, pem: string, p: PurposeId, d: DescriptorKey)
    requires d !in s.descriptors
    ensures var e := NewEntry(consumer, pem, AuthorizationWriter.Retrieve(s, p));
            e.descriptorKey == Some(d) ==> Stored(e).descriptorState.None?
    ensures var e := JoinedEntry(s, consumer, pem, p); e.descriptorKey == Some(d) ==> e.descriptorState.None?
  {
  }

  lemma KeyPutsOff(s: Rows, client: Client, kid: string, pem: string, purposes: set<PurposeId>, d: DescriptorKey,
                   pk: TokenKey)
    requires d !in s.descriptors
    ensures PutsOff(PutTokens(KeyEntries(s, client, kid, pem, purposes)), d, pk)
    ensures PutsOff(PutTokens(RecheckedKeyEntries(s, client, kid, pem, purposes)), d, pk)
  {
    if pk.ClientKidPurpose? {
      JoinedOff(s, client.consumer, pem, pk.purpose, d);
    }
  }

  lemma PurposePutsOff(s: Rows, client: Client, p: PurposeId, d: DescriptorKey, pk: TokenKey)
    requires d !in s.descriptors
    ensures PutsOff(PutTokens(PurposeEntries(s, client, p, Kids(client.keys))), d, pk)
    ensures PutsOff(PutTokens(RecheckedPurposeEntries(s, client, p, Kids(client.keys))), d, pk)
  {
    if pk.ClientKidPurpose? && pk.kid in Kids(client.keys) {
      JoinedOff(s, client.consumer, LastPem(client.keys, pk.kid), p, d);
    }
  }

  lemma ClientPutsOff(s: Rows, m: ClientMessage, d: DescriptorKey, pk: TokenKey)
    requires d !in s.descriptors && AuthorizationWriter.PlanOf(s, m).Ok?
    ensures var p := AuthorizationWriter.PlanOf(s, m).value;
            PutsOff(p.first, d, pk) && PutsOff(p.second, d, pk) && PutsOff(p.third, d, pk) && PutsOff(p.fourth, d, pk)
  {
    match m.kind
    case ClientKeyAdded(kid) =>
      var pem := FirstPem(m.client.keys, kid);
      if pem.Some? {
        KeyPutsOff(s, m.client, kid, pem.value, PurposeSet(m.client.purposes), d, pk);
      }
    case ClientPurposeAdded(p) => PurposePutsOff(s, m.client, p, d, pk);
    case _ =>
  }

  lemma ClientKeepsOff(s: Store, m: ClientMessage, d: DescriptorKey, pk: TokenKey)
    requires Off(s, d, pk)
    ensures Off(Handle(s, OnClient(m)), d, pk)
  {
    var plan := AuthorizationWriter.PlanOf(s.rows, m);
    if plan.Ok? {
      ClientPutsOff(s.rows, m, d, pk);
      PutsKeepOff(s, plan.value, d, pk);
    }
  }

  lemma PutsKeepOff(s: Store, p: Plan, d: DescriptorKey, pk: TokenKey)
    requires Off(s, d, pk)
    requires PutsOff(p.first, d, pk) && PutsOff(p.second, d, pk) && PutsOff(p.third, d, pk) && PutsOff(p.fourth, d, pk)
    ensures Off(Run(s, p), d, pk)
  {
    var s1 := Apply(s, p.first);
    var s2 := Apply(s1, p.second);
    PutKeepsOff(s, p.first, d, pk);
    PutKeepsOff(s1, p.second, d, pk);
    PutKeepsOff(s2, p.third, d, pk);
    PutKeepsOff(Apply(s2, p.third), p.fourth, d, pk);
  }

  lemma MessageKeepsOff(s: Store, m: Message, d: DescriptorKey, pk: TokenKey)
    requires Off(s, d, pk) && OnlyOn(s, d, pk) && LeavesArchived(d, m)
    ensures Off(Handle(s, m), d, pk)
  {
    match m
    case OnPurpose(pm) => PurposeKeepsOff(s, pm, d, pk);
    case OnAgreement(am) => AgreementKeepsOff(s, am, Handle(s, m), d, pk);
    case OnClient(cm) => ClientKeepsOff(s, cm, d, pk);
    case OnCatalog(cm) =>
      if Concerns(d, cm) {
        ArchivalIsEffective(s, cm, d);
        if pk in s.tokens && s.tokens[pk].ConsumerEntry? {
          ArchivalShutsTheGate(s, cm, d, pk);
        }
        KeysStay(s, cm);
      } else {
        CatalogKeepsOff(s, cm, Handle(s, m), d, pk);
      }
  }

  predicate IsCatalogEffect(f: Effect) {
    f.Nothing? || f.PutDescriptor? || f.DropDescriptor? || f.PatchTokens?
  }

  lemma CatalogEffects(s: Rows, m: CatalogMessage)
    requires CatalogWriter.PlanOf(s, m).Ok?
    ensures var p := CatalogWriter.PlanOf(s, m).value;
            && IsCatalogEffect(p.first) && IsCatalogEffect(p.second)
            && IsCatalogEffect(p.third) && IsCatalogEffect(p.fourth)
  {
  }

  lemma EffectsKeepKeys(s: Store, p: Plan)
    requires IsCatalogEffect(p.first) && IsCatalogEffect(p.second) && IsCatalogEffect(p.third)
             && IsCatalogEffect(p.fourth)
    ensures Run(s, p).tokens.Keys == s.tokens.Keys
    ensures forall pk :: pk in s.tokens && s.tokens[pk].ApiEntry? ==> Run(s, p).tokens[pk] == s.tokens[pk]
  {
  }

  lemma KeysStay(s: Store, m: CatalogMessage)
    ensures Handle(s, OnCatalog(m)).tokens.Keys == s.tokens.Keys
    ensures forall pk :: pk in s.tokens && s.tokens[pk].ApiEntry? ==> Handle(s, OnCatalog(m)).tokens[pk] == s.tokens[pk]
  {
    var plan := CatalogWriter.PlanOf(s.rows, m);
    if plan.Ok? {
      CatalogEffects(s.rows, m);
      EffectsKeepKeys(s, plan.value);
    }
  }

  lemma {:induction false} RunKeepsOff(s: Store, ms: seq<Message>, d: DescriptorKey, pk: TokenKey)
    requires Off(s, d, pk) && forall m :: m in ms ==> LeavesArchived(d, m)
    requires forall n :: 0 <= n < |ms| ==> OnlyOn(RunFrom(s, ms[..n]), d, pk)
    ensures Off(RunFrom(s, ms), d, pk)
  {
    if ms != [] {
      var before, last := ms[..|ms| - 1], |ms| - 1;
      forall n | 0 <= n < |before| ensures OnlyOn(RunFrom(s, before[..n]), d, pk) {
        assert before[..n] == ms[..n];
      }
      RunKeepsOff(s, before, d, pk);
      assert OnlyOn(RunFrom(s, ms[..last]), d, pk);
      MessageKeepsOff(RunFrom(s, before), ms[last], d, pk);
    }
  }

  /** After the archival the gate stays shut on the descriptor's entries, whatever other messages come,
      until the entry gets another descriptor: entries put anew on the descriptor included. */
  lemma GateShutsAfterDescriptorArchival(s: Store, m: CatalogMessage, ms: seq<Message>, d: DescriptorKey, pk: TokenKey)
    requires Archives(d, m) && OnlyOn(s, d, pk) && forall x :: x in ms ==> LeavesArchived(d, x)
    requires forall n :: 0 <= n < |ms| ==> OnlyOn(RunFrom(Handle(s, OnCatalog(m)), ms[..n]), d, pk)
    ensures var t := RunFrom(Handle(s, OnCatalog(m)), ms);
            && d !in t.rows.descriptors
            && (IsOn(t, d, pk) ==> !Gate.Validate(t.tokens[pk], true).Successful?)
  {
    var s1 := Handle(s, OnCatalog(m));
    ArchivalIsEffective(s, m, d);
    KeysStay(s, m);
    if pk in s.tokens && s.tokens[pk].ConsumerEntry? {
      ArchivalShutsTheGate(s, m, d, pk);
    }
    RunKeepsOff(s1, ms, d, pk);
    var t := RunFrom(s1, ms);
    if IsOn(t, d, pk) {
      Gate.ValidationIsExact(t.tokens[pk], true);
    }
  }
}
