/** The two tables as the writers see them: one method per DynamoDB call, paged walks, and the V2
    handlers built from those calls. */
module DynamoTables {
  import opened Wrappers
  import opened Domain
  import opened Tables
  import opened Effects
  import opened PurposeWriter
  import opened AgreementWriter
  import opened CatalogWriter
  import opened AuthorizationWriter
  import opened Platform

  /** Whether a walk whose last evaluated key has the rank `cursor` has still to evaluate `pk`. */
  predicate Ahead(rank: TokenKey -> int, cursor: Option<int>, pk: TokenKey) {
    cursor.None? || rank(pk) > cursor.value
  }

  function KeysAhead(t: Tokens, rank: TokenKey -> int, cursor: Option<int>): set<TokenKey> {
    set pk | pk in t && Ahead(rank, cursor, pk)
  }

  predicate Distinct(keys: seq<TokenKey>) {
    forall i, k :: 0 <= i < k < |keys| ==> keys[i] != keys[k]
  }

  /** The table once a propagation has passed every key ranked above `cursor`. */
  function PatchAhead(patch: Patch, t: Tokens, rank: TokenKey -> int, cursor: Option<int>): Tokens {
    map pk | pk in t :: if Ahead(rank, cursor, pk) then PatchedAt(patch, pk, t[pk]) else t[pk]
  }

  lemma DistinctConcat(a: seq<TokenKey>, b: seq<TokenKey>)
    requires Distinct(a) && Distinct(b) && forall pk :: pk in a ==> pk !in b
    ensures Distinct(a + b)
  {
    var c := a + b;
    forall i, k | 0 <= i < k < |c|
      ensures c[i] != c[k]
    {
      if i < |a| <= k {
        assert c[i] in a && c[k] in b;
      }
    }
  }

  function AgreementPatchOf(a: Agreement, catalog: Option<CatalogRow>): Patch {
    AgreementPatch(KeyOf(a), a.id, AgreementItemState(a.state), DescriptorKey(a.eservice, a.descriptor), catalog)
  }

  lemma PutAndDropStep(base: Tokens, m: Tokens, dropped: set<TokenKey>, pk: TokenKey, e: TokenEntry, gone: TokenKey)
    requires pk !in dropped && pk != gone
    ensures (base + m - dropped)[pk := e] - {gone} == base + m[pk := e] - (dropped + {gone})
  {
  }

  /** Entries as they were built in memory, by the key they were put under. */
  type Built = map<TokenKey, TokenEntry>

  function StoredAll(built: Built): Tokens {
    map pk | pk in built :: Stored(built[pk])
  }

  function RecheckedAll(s: Rows, built: Built): Tokens
    requires forall pk :: pk in built ==> pk.ClientKidPurpose? && built[pk].ConsumerEntry?
  {
    map pk | pk in built :: Rechecked(built[pk], Stored(built[pk]), Retrieve(s, pk.purpose))
  }

  lemma StoredAllStep(before: Tokens, built: Built, pk: TokenKey, e: TokenEntry)
    ensures (before + StoredAll(built))[pk := Stored(e)] == before + StoredAll(built[pk := e])
  {
    assert StoredAll(built[pk := e]) == StoredAll(built)[pk := Stored(e)];
  }

  predicate BuiltFor(built: Built, s: Rows, client: Client, kid: string, pem: string, purposes: set<PurposeId>) {
    && built.Keys == CompleteKeys(client.id, {kid}, purposes)
    && forall pk :: pk in built ==> built[pk] == NewEntry(client.consumer, pem, Retrieve(s, pk.purpose))
  }

  lemma BuiltForKey(built: Built, s: Rows, client: Client, kid: string, pem: string, purposes: set<PurposeId>)
    requires BuiltFor(built, s, client, kid, pem, purposes)
    ensures StoredAll(built) == KeyEntries(s, client, kid, pem, purposes)
    ensures RecheckedAll(s, built) == RecheckedKeyEntries(s, client, kid, pem, purposes)
  {
    assert built.Keys == CompleteKeys(client.id, {kid}, purposes);
  }

  /** The entries of one purpose, as built in memory for the client's keys. */
  function BuiltForPurpose(s: Rows, client: Client, p: PurposeId): Built {
    map pk | pk in CompleteKeys(client.id, Kids(client.keys), {p}) ::
      NewEntry(client.consumer, LastPem(client.keys, pk.kid), Retrieve(s, p))
  }

  lemma BuiltForPurposeRechecked(s: Rows, client: Client, p: PurposeId)
    ensures StoredAll(BuiltForPurpose(s, client, p)) == PurposeEntries(s, client, p, Kids(client.keys))
    ensures RecheckedAll(s, BuiltForPurpose(s, client, p)) == RecheckedPurposeEntries(s, client, p, Kids(client.keys))
  {
  }

  /** The entries put once the client's first `i` keys are done. */
  function PrefixEntries(s: Rows, client: Client, p: PurposeId, i: nat): Tokens
    requires i <= |client.keys|
  {
    PurposeEntries(s, client.(keys := client.keys[..i]), p, Kids(client.keys[..i]))
  }

  lemma PrefixEntriesStep(s: Rows, client: Client, p: PurposeId, i: nat)
    requires i < |client.keys|
    ensures var key := client.keys[i];
            && Kids(client.keys[..i + 1]) == Kids(client.keys[..i]) + {key.kid}
            && PrefixEntries(s, client, p, i + 1)
               == PrefixEntries(s, client, p, i)[ClientKidPurpose(client.id, key.kid, p) :=
                    Stored(NewEntry(client.consumer, key.encodedPem, Retrieve(s, p)))]
  {
    var prefix, longer := client.keys[..i], client.keys[..i + 1];
    assert longer[..i] == prefix && longer[|longer| - 1] == client.keys[i];
    assert Kids(longer) == Kids(prefix) + {client.keys[i].kid} by {
      assert forall k :: k in longer <==> k in prefix || k == client.keys[i];
    }
  }

  /** The entries after a key was added: the puts, then what the second retrieval leaves. */
  function KeyTokens(s: Rows, t: Tokens, client: Client, kid: string, pem: string): Tokens {
    if client.kind == ApiClient then t[ClientKid(client.id, kid) := ApiEntry(client.consumer, pem)]
    else t + KeyEntries(s, client, kid, pem, PurposeSet(client.purposes))
           + RecheckedKeyEntries(s, client, kid, pem, PurposeSet(client.purposes))
  }

  /** The entries after a purpose was added. */
  function PurposeTokens(s: Rows, t: Tokens, client: Client, p: PurposeId): Tokens {
    t + PurposeEntries(s, client, p, Kids(client.keys)) - PartialKeys(client.id, Kids(client.keys))
      + RecheckedPurposeEntries(s, client, p, Kids(client.keys))
  }

  lemma RetrieveIgnoresClients(s: Rows, cs: map<ClientId, ClientRow>, p: PurposeId)
    ensures Retrieve(s.(clients := cs), p) == Retrieve(s, p)
  {
  }

  /** The joins do not read the client rows, so the client's own row may be written before them. */
  lemma KeyTokensIgnoreClients(s: Rows, cs: map<ClientId, ClientRow>, t: Tokens, client: Client, kid: string,
                               pem: string)
    ensures KeyTokens(s.(clients := cs), t, client, kid, pem) == KeyTokens(s, t, client, kid, pem)
  {
    var s1, ps := s.(clients := cs), PurposeSet(client.purposes);
    forall q ensures Retrieve(s1, q) == Retrieve(s, q) {
      RetrieveIgnoresClients(s, cs, q);
    }
    assert KeyEntries(s1, client, kid, pem, ps) == KeyEntries(s, client, kid, pem, ps);
    assert RecheckedKeyEntries(s1, client, kid, pem, ps) == RecheckedKeyEntries(s, client, kid, pem, ps);
  }

  lemma PurposeTokensIgnoreClients(s: Rows, cs: map<ClientId, ClientRow>, t: Tokens, client: Client, p: PurposeId)
    ensures PurposeTokens(s.(clients := cs), t, client, p) == PurposeTokens(s, t, client, p)
  {
    var s1, kids := s.(clients := cs), Kids(client.keys);
    RetrieveIgnoresClients(s, cs, p);
    assert PurposeEntries(s1, client, p, kids) == PurposeEntries(s, client, p, kids);
    assert RecheckedPurposeEntries(s1, client, p, kids) == RecheckedPurposeEntries(s, client, p, kids);
  }

  function WithClientOf(s: Rows, m: ClientMessage): Rows {
    s.(clients := s.clients[m.client.id := ClientRow(m.client.kind, m.client.consumer, [], m.version)])
  }

  predicate Superseded(s: Rows, m: ClientMessage) {
    m.client.id in s.clients && s.clients[m.client.id].version > m.version
  }

  lemma KeyAddedOutcome(s: Store, m: ClientMessage, pem: string)
    requires m.kind.ClientKeyAdded? && FirstPem(m.client.keys, m.kind.kid) == Some(pem) && pem != ""
             && !Superseded(s.rows, m)
    ensures Handle(s, OnClient(m))
            == Store(WithClientOf(s.rows, m), KeyTokens(s.rows, s.tokens, m.client, m.kind.kid, pem))
  {
  }

  lemma PurposeAddedOutcome(s: Store, m: ClientMessage)
    requires m.kind.ClientPurposeAdded? && !Superseded(s.rows, m)
    ensures Handle(s, OnClient(m))
            == Store(WithClientOf(s.rows, m), PurposeTokens(s.rows, s.tokens, m.client, m.kind.purpose))
  {
  }

  /** The puts of a purpose's entries are still in place once the partial entries are gone. */
  lemma BuiltForPurposeInPlace(s: Rows, t: Tokens, client: Client, p: PurposeId, pk: TokenKey)
    requires pk in BuiltForPurpose(s, client, p)
    ensures var t1 := t + PurposeEntries(s, client, p, Kids(client.keys)) - PartialKeys(client.id, Kids(client.keys));
            pk in t1 && t1[pk] == Stored(BuiltForPurpose(s, client, p)[pk])
  {
  }

  class Database {
    var purposes: map<PurposeId, PurposeRow>
    var agreements: map<AgreementKey, AgreementRow>
    var descriptors: map<DescriptorKey, CatalogRow>
    var clients: map<ClientId, ClientRow>
    var tokens: Tokens

    /** The order, unknown to the writers, in which queries and scans pass over the entries. */
    const rank: TokenKey -> int

    ghost function RowsView(): Rows
      reads this`purposes, this`agreements, this`descriptors, this`clients
    {
      Rows(purposes, agreements, descriptors, clients)
    }

    ghost function View(): Store
      reads this
    {
      Store(RowsView(), tokens)
    }

    constructor (rank: TokenKey -> int)
      ensures View() == EMPTY_STORE && this.rank == rank
    {
      purposes, agreements, descriptors, clients, tokens := map[], map[], map[], map[], map[];
      this.rank := rank;
    }

    /* ---- platform-states ---- */

    /** attribute_not_exists(PK): reports whether the condition held. */
    method WritePurpose(p: PurposeId, row: PurposeRow) returns (ok: bool)
      modifies this`purposes
      ensures ok <==> p !in old(purposes)
      ensures purposes == if ok then old(purposes)[p := row] else old(purposes)
    {
      ok := p !in purposes;
      if ok { purposes := purposes[p := row]; }
    }

    /** attribute_exists(PK). */
    method UpdatePurposeData(p: PurposeId, state: ItemState, versionId: PurposeVersionId, version: int)
      returns (ok: bool)
      modifies this`purposes
      ensures ok <==> p in old(purposes)
      ensures purposes == if ok
              then old(purposes)[p := old(purposes)[p].(state := state, versionId := versionId, version := version)]
                          else old(purposes)
    {
      ok := p in purposes;
      if ok { purposes := purposes[p := purposes[p].(state := state, versionId := versionId, version := version)]; }
    }

    method DeletePurpose(p: PurposeId)
      modifies this`purposes
      ensures purposes == old(purposes) - {p}
    {
      purposes := purposes - {p};
    }

    method UpsertAgreement(k: AgreementKey, row: AgreementRow)
      modifies this`agreements
      ensures agreements == old(agreements)[k := row]
    {
      agreements := agreements[k := row];
    }

    /** attribute_exists(PK). */
    method UpdateAgreementState(k: AgreementKey, state: ItemState, version: int) returns (ok: bool)
      modifies this`agreements
      ensures ok <==> k in old(agreements)
      ensures agreements == if ok then old(agreements)[k := old(agreements)[k].(state := state, version := version)]
              else old(agreements)
    {
      ok := k in agreements;
      if ok { agreements := agreements[k := agreements[k].(state := state, version := version)]; }
    }

    /** attribute_not_exists(PK). */
    method WriteDescriptor(d: DescriptorKey, row: CatalogRow) returns (ok: bool)
      modifies this`descriptors
      ensures ok <==> d !in old(descriptors)
      ensures descriptors == if ok then old(descriptors)[d := row] else old(descriptors)
    {
      ok := d !in descriptors;
      if ok { descriptors := descriptors[d := row]; }
    }

    /** attribute_exists(PK). */
    method UpdateDescriptorState(d: DescriptorKey, state: ItemState, version: int) returns (ok: bool)
      modifies this`descriptors
      ensures ok <==> d in old(descriptors)
      ensures descriptors == if ok then old(descriptors)[d := old(descriptors)[d].(state := state, version := version)]
              else old(descriptors)
    {
      ok := d in descriptors;
      if ok { descriptors := descriptors[d := descriptors[d].(state := state, version := version)]; }
    }

    /** attribute_exists(PK). */
    method UpdateDescriptorLifespan(d: DescriptorKey, lifespan: int, version: int) returns (ok: bool)
      modifies this`descriptors
      ensures ok <==> d in old(descriptors)
      ensures descriptors == if ok
              then old(descriptors)[d := old(descriptors)[d].(lifespan := lifespan, version := version)]
                else old(descriptors)
    {
      ok := d in descriptors;
      if ok { descriptors := descriptors[d := descriptors[d].(lifespan := lifespan, version := version)]; }
    }

    method DeleteDescriptor(d: DescriptorKey)
      modifies this`descriptors
      ensures descriptors == old(descriptors) - {d}
    {
      descriptors := descriptors - {d};
    }

    method UpsertClient(c: ClientId, row: ClientRow)
      modifies this`clients
      ensures clients == old(clients)[c := row]
    {
      clients := clients[c := row];
    }

    /** attribute_exists(PK). */
    method SetClientPurposes(c: ClientId, purposeIds: seq<PurposeId>, version: int) returns (ok: bool)
      modifies this`clients
      ensures ok <==> c in old(clients)
      ensures clients == if ok then old(clients)[c := old(clients)[c].(purposes := purposeIds, version := version)]
              else old(clients)
    {
      ok := c in clients;
      if ok { clients := clients[c := clients[c].(purposes := purposeIds, version := version)]; }
    }

    method DeleteClient(c: ClientId)
      modifies this`clients
      ensures clients == old(clients) - {c}
    {
      clients := clients - {c};
    }

    /* ---- token-generation-states ---- */

    method UpsertToken(pk: TokenKey, e: TokenEntry)
      modifies this`tokens
      ensures tokens == old(tokens)[pk := e]
    {
      tokens := tokens[pk := e];
    }

    method DeleteToken(pk: TokenKey)
      modifies this`tokens
      ensures tokens == old(tokens) - {pk}
    {
      tokens := tokens - {pk};
    }

    /** One page: the selected entries among the keys evaluated after the cursor.  Where the page ends
        is up to the service, which evaluates at least one key if there is one; `last` is its
        LastEvaluatedKey, which may be set even when nothing follows. */
    method QueryPage(patch: Patch, cursor: Option<int>) returns (page: set<TokenKey>, last: Option<int>)
      ensures last.Some? ==> KeysAhead(tokens, rank, last) < KeysAhead(tokens, rank, cursor)
      ensures last.Some? ==> forall pk :: Ahead(rank, last, pk) ==> Ahead(rank, cursor, pk)
      ensures forall pk :: pk in page <==>
                pk in tokens && Selects(patch, pk, tokens[pk]) && Ahead(rank, cursor, pk)
                  && (last.None? || !Ahead(rank, last, pk))
    {
      var ahead := KeysAhead(tokens, rank, cursor);
      last := None;
      if ahead != {} {
        var first :| first in ahead;
        var limit: int := *;
        if limit < rank(first) { limit := rank(first); }
        var more: bool := *;
        if more || KeysAhead(tokens, rank, Some(limit)) != {} {
          assert first !in KeysAhead(tokens, rank, Some(limit));
          last := Some(limit);
        }
      }
      page := set pk | pk in ahead && Selects(patch, pk, tokens[pk]) && (last.None? || !Ahead(rank, last, pk));
    }

    /** The updates for the entries of one page, each conditional on the entry's existence. */
    method UpdateEntries(patch: Patch, page: set<TokenKey>) returns (touched: seq<TokenKey>)
      requires forall pk :: pk in page ==> pk in tokens && Selects(patch, pk, tokens[pk])
      modifies this`tokens
      ensures tokens == PatchSome(patch, old(tokens), page)
      ensures Distinct(touched) && forall pk :: pk in touched <==> pk in page
    {
      touched := [];
      var pending := page;
      while pending != {}
        invariant pending <= page
        invariant tokens == PatchSome(patch, old(tokens), page - pending)
        invariant Distinct(touched) && forall pk :: pk in touched <==> pk in page - pending
      {
        var pk :| pk in pending;
        tokens := tokens[pk := Patched(patch, tokens[pk])];
        touched := touched + [pk];
        pending := pending - {pk};
      }
    }

    /** A paged propagation touches every selected entry ahead of the cursor once, and no other, for
        every choice of page boundaries. */
    method Propagate(patch: Patch, cursor: Option<int>) returns (touched: seq<TokenKey>)
      modifies this`tokens
      decreases KeysAhead(tokens, rank, cursor)
      ensures tokens == PatchAhead(patch, old(tokens), rank, cursor)
      ensures Distinct(touched)
      ensures forall pk :: pk in touched <==>
                pk in old(tokens) && Ahead(rank, cursor, pk) && Selects(patch, pk, old(tokens)[pk])
    {
      var page, last := QueryPage(patch, cursor);
      touched := UpdateEntries(patch, page);
      if last.Some? {
        assert KeysAhead(tokens, rank, last) == KeysAhead(old(tokens), rank, last);
        var others := Propagate(patch, last);
        DistinctConcat(touched, others);
        touched := touched + others;
      }
    }

    method PropagateAll(patch: Patch) returns (touched: seq<TokenKey>)
      modifies this`tokens
      ensures tokens == PatchAll(patch, old(tokens))
      ensures Distinct(touched) && forall pk :: pk in touched <==>
                pk in old(tokens) && Selects(patch, pk, old(tokens)[pk])
    {
      touched := Propagate(patch, None);
    }

    /* ---- purpose-platformstate-writer ---- */

    /** The join walk reads the agreement and catalog rows again for every page. */
    method PropagateJoin(m: PurposeMessage, versionId: PurposeVersionId, cursor: Option<int>)
      modifies this`tokens
      decreases KeysAhead(tokens, rank, cursor)
      ensures tokens == PatchAhead(JoinPatch(RowsView(), m, versionId), old(tokens), rank, cursor)
    {
      var home := AgreementKey(m.purpose.consumer, m.purpose.eservice);
      var agreement := Lookup(agreements, home);
      var catalog := None;
      if agreement.Some? {
        catalog := Lookup(descriptors, DescriptorKey(m.purpose.eservice, agreement.value.descriptor));
      }
      var patch := PurposeJoinPatch(m.purpose.id, PurposeState(m.purpose.versions), versionId, home, agreement,
                                    catalog);
      var page, last := QueryPage(patch, cursor);
      var _ := UpdateEntries(patch, page);
      if last.Some? {
        assert KeysAhead(tokens, rank, last) == KeysAhead(old(tokens), rank, last);
        PropagateJoin(m, versionId, last);
      }
    }

    method HandlePurpose(m: PurposeMessage) returns (failed: bool)
      modifies this`purposes, this`tokens
      ensures View() == Handle(old(View()), OnPurpose(m))
      ensures failed <==> PurposeWriter.PlanOf(old(RowsView()), m).Err?
    {
      failed := false;
      var id, state := m.purpose.id, PurposeState(m.purpose.versions);
      var existing := Lookup(purposes, id);
      match m.kind
      case PurposeActivation =>
        var version := LiveVersion(m.purpose.versions);
        if version.None? { return true; }
        if existing.Some? {
          if existing.value.version > m.version { return; }
          var updated := UpdatePurposeData(id, state, version.value.id, m.version);
          assert updated;
        } else {
          var written := WritePurpose(id,
                                      PurposeRow(state, version.value.id, m.purpose.eservice, m.purpose.consumer,
                                                 m.version));
          assert written;
        }
        PropagateJoin(m, version.value.id, None);
      case VersionChange =>
        if existing.None? || existing.value.version > m.version { return; }
        var updated := UpdatePurposeData(id, state, m.versionId, m.version);
        assert updated;
        var _ := PropagateAll(PurposePatch(id, state, m.versionId));
      case PurposeArchival =>
        DeletePurpose(id);
        var _ := PropagateAll(PurposePatch(id, state, m.versionId));
      case OtherPurposeEvent =>
    }

    /* ---- agreement-platformstate-writer ---- */

    /** The second propagation, run only if the catalog row appeared or changed state between reads. */
    method SecondCatalogCheck(a: Agreement, first: Option<CatalogRow>, second: Option<CatalogRow>)
      modifies this`tokens
      ensures tokens == if second.Some? && (first.None? || second.value.state != first.value.state)
                        then PatchAll(AgreementPatchOf(a, second), old(tokens)) else old(tokens)
    {
      if second.Some? && (first.None? || second.value.state != first.value.state) {
        var _ := PropagateAll(AgreementPatchOf(a, second));
      }
    }

    method UpdateLatestAgreement(a: Agreement)
      modifies this`tokens
      ensures tokens == PatchAll(AgreementPatchOf(a, Lookup(descriptors, DescriptorKey(a.eservice, a.descriptor))),
                                 old(tokens))
    {
      var target := DescriptorKey(a.eservice, a.descriptor);
      var catalog := Lookup(descriptors, target);
      var _ := PropagateAll(AgreementPatchOf(a, catalog));
      SecondCatalogCheck(a, catalog, Lookup(descriptors, target));
    }

    method HandleAgreement(m: AgreementMessage) returns (failed: bool)
      modifies this`agreements, this`tokens
      ensures View() == Handle(old(View()), OnAgreement(m))
      ensures failed <==> AgreementWriter.PlanOf(old(RowsView()), m).Err?
    {
      failed := false;
      var a, key, state := m.agreement, KeyOf(m.agreement), AgreementItemState(m.agreement.state);
      var existing := Lookup(agreements, key);
      match m.kind
      case AgreementActivation =>
        if a.stamps.activation.None? { return true; }
        var timestamp := a.stamps.activation.value.when;
        if IsLatest(existing, timestamp) {
          if Outdated(existing, m) { return; }
          UpsertAgreement(key, RowOf(m, timestamp));
          UpdateLatestAgreement(a);
        }
      case SuspensionChange =>
        if IsLatest(existing, ExtractTimestamp(a)) {
          if existing.None? || Outdated(existing, m) { return; }
          var updated := UpdateAgreementState(key, state, m.version);
          assert updated;
          var _ := PropagateAll(AgreementStatePatch(key, state));
        }
      case AgreementUpgrade =>
        if a.stamps.upgrade.None? { return true; }
        var timestamp := a.stamps.upgrade.value.when;
        if IsLatest(existing, timestamp) {
          if Outdated(existing, m) || (a.state != Active && a.state != Suspended) { return; }
          UpsertAgreement(key, RowOf(m, timestamp));
          UpdateLatestAgreement(a);
        }
      case ConsumerArchival =>
        if IsLatest(existing, ExtractTimestamp(a)) && existing.Some? && existing.value.agreementId == a.id {
          var _ := PropagateAll(AgreementStatePatch(key, state));
          var updated := UpdateAgreementState(key, state, m.version);
          assert updated;
        }
      case OtherAgreementEvent =>
    }

    /* ---- catalog-platformstate-writer ---- */

    method ProcessCurrentDescriptor(m: CatalogMessage, d: Descriptor)
      modifies this`descriptors, this`tokens
      ensures var f := CurrentPlan(old(RowsView()), m, d);
              View() == Apply(Apply(old(View()), f.0), f.1)
    {
      var key, state := DescriptorKey(m.eservice.id, d.id), DescriptorItemState(d.state);
      var existing := Lookup(descriptors, key);
      if existing.Some? {
        if existing.value.version > m.version { return; }
        var updated := UpdateDescriptorState(key, state, m.version);
        assert updated;
      } else {
        var written := WriteDescriptor(key, CatalogRow(state, d.audience, d.voucherLifespan, m.version));
        assert written;
      }
      var _ := PropagateAll(DescriptorInfoPatch(key, state, d.voucherLifespan, d.audience));
    }

    method ProcessPreviousDescriptor(m: CatalogMessage, d: Descriptor)
      modifies this`descriptors, this`tokens
      ensures var f := PreviousPlan(m, d);
              View() == Apply(Apply(old(View()), f.0), f.1)
    {
      var previous := FindVersion(m.eservice.descriptors, d.version - 1);
      if previous.None? || previous.value.state != ArchivedDescriptor { return; }
      var key := DescriptorKey(m.eservice.id, previous.value.id);
      DeleteDescriptor(key);
      var _ := PropagateAll(DescriptorStatePatch(key, DescriptorItemState(previous.value.state)));
    }

    method HandleCatalog(m: CatalogMessage) returns (failed: bool)
      modifies this`descriptors, this`tokens
      ensures View() == Handle(old(View()), OnCatalog(m))
      ensures failed <==> CatalogWriter.PlanOf(old(RowsView()), m).Err?
    {
      failed := false;
      if m.kind.OtherCatalogEvent? { return; }
      var found := FindDescriptor(m.eservice.descriptors, m.descriptor);
      if found.None? { return true; }
      var d := found.value;
      if m.kind.DescriptorPublication? {
        ProcessCurrentDescriptor(m, d);
        ProcessPreviousDescriptor(m, d);
        return;
      }
      var key, state := DescriptorKey(m.eservice.id, d.id), DescriptorItemState(d.state);
      if m.kind.DescriptorArchival? {
        DeleteDescriptor(key);
        var _ := PropagateAll(DescriptorStatePatch(key, state));
        return;
      }
      var existing := Lookup(descriptors, key);
      if existing.None? || existing.value.version > m.version { return; }
      if m.kind.DescriptorStateChange? {
        var updated := UpdateDescriptorState(key, state, m.version);
        assert updated;
        var _ := PropagateAll(DescriptorStatePatch(key, state));
      } else if d.voucherLifespan != existing.value.lifespan {
        var updated := UpdateDescriptorLifespan(key, d.voucherLifespan, m.version);
        assert updated;
        var _ := PropagateAll(LifespanPatch(key, d.voucherLifespan));
      }
    }

    /* ---- authorization-platformstate-writer ---- */

    /** attribute_exists(PK): the update that the second retrieval asks for, if any. */
    method RecheckToken(pk: TokenKey, e: TokenEntry, r: Retrieved) returns (ok: bool)
      requires e.ConsumerEntry? && (pk in tokens ==> tokens[pk].ConsumerEntry?)
      modifies this`tokens
      ensures ok <==> pk in old(tokens)
      ensures tokens == if ok then old(tokens)[pk := Rechecked(e, old(tokens)[pk], r)] else old(tokens)
    {
      ok := pk in tokens;
      if ok { tokens := tokens[pk := Rechecked(e, tokens[pk], r)]; }
    }

    method DeleteTokens(keys: set<TokenKey>)
      modifies this`tokens
      ensures tokens == old(tokens) - keys
    {
      var pending := keys;
      while pending != {}
        invariant pending <= keys && tokens == old(tokens) - (keys - pending)
      {
        var pk :| pk in pending;
        DeleteToken(pk);
        pending := pending - {pk};
      }
    }

    /** Puts of one key's entries, one per purpose, in any order; returns them as built in memory. */
    method PutKeyEntries(client: Client, kid: string, pem: string, purposeIds: set<PurposeId>) returns (added: Built)
      modifies this`tokens
      ensures tokens == old(tokens) + StoredAll(added)
      ensures BuiltFor(added, RowsView(), client, kid, pem, purposeIds)
    {
      var rows := Rows(purposes, agreements, descriptors, clients);
      var before := tokens;
      added := map[];
      var pending := purposeIds;
      while pending != {}
        invariant pending <= purposeIds
        invariant BuiltFor(added, rows, client, kid, pem, purposeIds - pending)
        invariant tokens == before + StoredAll(added)
      {
        var p :| p in pending;
        var pk, e := ClientKidPurpose(client.id, kid, p), NewEntry(client.consumer, pem, Retrieve(rows, p));
        StoredAllStep(before, added, pk, e);
        UpsertToken(pk, Stored(e));
        added := added[pk := e];
        pending := pending - {p};
      }
    }

    /** The second retrieval for each of the entries just put. */
    method RecheckEntries(added: Built)
      requires forall pk :: pk in added ==> pk.ClientKidPurpose? && added[pk].ConsumerEntry?
      requires forall pk :: pk in added ==> pk in tokens && tokens[pk] == Stored(added[pk])
      modifies this`tokens
      ensures tokens == old(tokens) + RecheckedAll(RowsView(), added)
    {
      var rows := Rows(purposes, agreements, descriptors, clients);
      ghost var final := RecheckedAll(rows, added);
      ghost var before := tokens;
      var pending := added.Keys;
      while pending != {}
        invariant pending <= added.Keys
        invariant tokens.Keys == before.Keys
        invariant forall pk :: pk in tokens ==>
                    tokens[pk] == if pk in final && pk !in pending then final[pk] else before[pk]
      {
        var pk :| pk in pending;
        var updated := RecheckToken(pk, added[pk], Retrieve(rows, pk.purpose));
        assert updated;
        pending := pending - {pk};
      }
    }

    /** Puts of one purpose's entries, one per key in the client's order, each followed by the removal
        of the key's partial entry. */
    method PutPurposeEntries(client: Client, p: PurposeId, r: Retrieved)
      requires r == Retrieve(RowsView(), p)
      modifies this`tokens
      ensures tokens == old(tokens)
              + PurposeEntries(RowsView(), client, p, Kids(client.keys)) - PartialKeys(client.id, Kids(client.keys))
    {
      var rows := Rows(purposes, agreements, descriptors, clients);
      var before := tokens;
      var i := 0;
      while i < |client.keys|
        invariant 0 <= i <= |client.keys|
        invariant tokens == before + PrefixEntries(rows, client, p, i) - PartialKeys(client.id, Kids(client.keys[..i]))
      {
        var key := client.keys[i];
        ghost var dropped := PartialKeys(client.id, Kids(client.keys[..i]));
        var pk, gone, e := ClientKidPurpose(client.id, key.kid, p), ClientKid(client.id, key.kid),
                           Stored(NewEntry(client.consumer, key.encodedPem, r));
        PrefixEntriesStep(rows, client, p, i);
        PutAndDropStep(before, PrefixEntries(rows, client, p, i), dropped, pk, e, gone);
        assert PartialKeys(client.id, Kids(client.keys[..i + 1])) == dropped + {gone};
        UpsertToken(pk, e);
        DeleteToken(gone);
        i := i + 1;
      }
      assert client.keys[..i] == client.keys;
      assert client.(keys := client.keys[..i]) == client;
    }

    method AddKey(client: Client, kid: string, pem: string)
      modifies this`tokens
      ensures tokens == KeyTokens(RowsView(), old(tokens), client, kid, pem)
    {
      if client.kind == ApiClient {
        UpsertToken(ClientKid(client.id, kid), ApiEntry(client.consumer, pem));
        return;
      }
      var added := PutKeyEntries(client, kid, pem, PurposeSet(client.purposes));
      BuiltForKey(added, RowsView(), client, kid, pem, PurposeSet(client.purposes));
      RecheckEntries(added);
    }

    method AddPurpose(client: Client, p: PurposeId)
      modifies this`tokens
      ensures tokens == PurposeTokens(RowsView(), old(tokens), client, p)
    {
      var r := Retrieve(Rows(purposes, agreements, descriptors, clients), p);
      PutPurposeEntries(client, p, r);
      var built := BuiltForPurpose(Rows(purposes, agreements, descriptors, clients), client, p);
      forall pk | pk in built
        ensures pk.ClientKidPurpose? && built[pk].ConsumerEntry? && pk in tokens && tokens[pk] == Stored(built[pk])
      {
        BuiltForPurposeInPlace(RowsView(), old(tokens), client, p, pk);
      }
      RecheckEntries(built);
      BuiltForPurposeRechecked(RowsView(), client, p);
    }

    method RemoveKey(client: Client, kid: string)
      modifies this`tokens
      ensures tokens == old(tokens) - (if |client.purposes| > 0
                                       then CompleteKeys(client.id, {kid}, PurposeSet(client.purposes))
                                       else {ClientKid(client.id, kid)})
    {
      if |client.purposes| > 0 {
        DeleteTokens(CompleteKeys(client.id, {kid}, PurposeSet(client.purposes)));
      } else {
        DeleteToken(ClientKid(client.id, kid));
      }
    }

    /** Whether the client row was written by a more recent message. */
    predicate MoreRecent(m: ClientMessage)
      reads this`clients
    {
      m.client.id in clients && clients[m.client.id].version > m.version
    }

    method UpsertClientOf(m: ClientMessage)
      modifies this`clients
      ensures clients == old(clients)[m.client.id := ClientRow(m.client.kind, m.client.consumer, [], m.version)]
    {
      UpsertClient(m.client.id, ClientRow(m.client.kind, m.client.consumer, [], m.version));
    }

    method HandleKeyAdded(m: ClientMessage) returns (failed: bool)
      requires m.kind.ClientKeyAdded?
      modifies this`clients, this`tokens
      ensures View() == Handle(old(View()), OnClient(m))
      ensures failed <==> AuthorizationWriter.PlanOf(old(RowsView()), m).Err?
    {
      failed := false;
      var pem := FirstPem(m.client.keys, m.kind.kid);
      if pem.None? || pem.value == "" { return true; }
      if MoreRecent(m) { return; }
      KeyAddedOutcome(View(), m, pem.value);
      KeyTokensIgnoreClients(RowsView(), WithClientOf(RowsView(), m).clients, tokens, m.client, m.kind.kid, pem.value);
      UpsertClientOf(m);
      AddKey(m.client, m.kind.kid, pem.value);
    }

    method HandleKeyDeleted(m: ClientMessage)
      requires m.kind.ClientKeyDeleted?
      modifies this`clients, this`tokens
      ensures View() == Handle(old(View()), OnClient(m))
    {
      if MoreRecent(m) { return; }
      UpsertClientOf(m);
      RemoveKey(m.client, m.kind.kid);
    }

    method HandlePurposeAdded(m: ClientMessage)
      requires m.kind.ClientPurposeAdded?
      modifies this`clients, this`tokens
      ensures View() == Handle(old(View()), OnClient(m))
    {
      if MoreRecent(m) { return; }
      PurposeAddedOutcome(View(), m);
      PurposeTokensIgnoreClients(RowsView(), WithClientOf(RowsView(), m).clients, tokens, m.client, m.kind.purpose);
      UpsertClientOf(m);
      AddPurpose(m.client, m.kind.purpose);
    }

    method HandlePurposeRemoved(m: ClientMessage)
      requires m.kind.ClientPurposeRemoved?
      modifies this`clients, this`tokens
      ensures View() == Handle(old(View()), OnClient(m))
    {
      if m.client.id !in clients || MoreRecent(m) { return; }
      var updated := SetClientPurposes(m.client.id, [], m.version);
      assert updated;
      DeleteTokens(CompleteKeys(m.client.id, Kids(m.client.keys), {m.kind.purpose}));
    }

    method HandleClient(m: ClientMessage) returns (failed: bool)
      modifies this`clients, this`tokens
      ensures View() == Handle(old(View()), OnClient(m))
      ensures failed <==> AuthorizationWriter.PlanOf(old(RowsView()), m).Err?
    {
      failed := false;
      match m.kind
      case ClientKeyAdded(_) => failed := HandleKeyAdded(m);
      case ClientKeyDeleted(_) => HandleKeyDeleted(m);
      case ClientPurposeAdded(_) => HandlePurposeAdded(m);
      case ClientPurposeRemoved(_) => HandlePurposeRemoved(m);
      case ClientDeleted =>
        DeleteClient(m.client.id);
        DeleteTokens(ClientTokenKeys(m.client));
      case OtherClientEvent =>
    }

    /** One message of any topic. */
    method HandleMessage(m: Message) returns (failed: bool)
      modifies this
      ensures View() == Handle(old(View()), m)
      ensures failed <==> PlanFor(old(RowsView()), m).Err?
    {
      match m
      case OnPurpose(pm) => failed := HandlePurpose(pm);
      case OnAgreement(am) => failed := HandleAgreement(am);
      case OnCatalog(cm) => failed := HandleCatalog(cm);
      case OnClient(cm) => failed := HandleClient(cm);
    }
  }
}
