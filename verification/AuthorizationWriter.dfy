/** authorization-platformstate-writer, V2 messages. */
module AuthorizationWriter {
  import opened Wrappers
  import opened Domain
  import opened Tables
  import opened Effects

  datatype ClientMessageKind =
    | ClientKeyAdded(kid: string)
    | ClientKeyDeleted(kid: string)
    | ClientPurposeAdded(purpose: PurposeId)
    | ClientPurposeRemoved(purpose: PurposeId)
    | ClientDeleted
    | OtherClientEvent

  datatype ClientMessage = ClientMessage(kind: ClientMessageKind, client: Client, version: int)

  datatype Retrieved = Retrieved(
    purpose: Option<PurposeRow>,
    agreement: Option<AgreementRow>,
    catalog: Option<CatalogRow>)

  /** The purpose row, the agreement row it leads to, and the catalog row that one leads to. */
  function Retrieve(s: Rows, p: PurposeId): Retrieved {
    match Lookup(s.purposes, p)
    case None => Retrieved(None, None, None)
    case Some(purpose) =>
      match Lookup(s.agreements, AgreementKey(purpose.consumer, purpose.eservice))
      case None => Retrieved(Some(purpose), None, None)
      case Some(agreement) =>
        Retrieved(Some(purpose), Some(agreement),
                  Lookup(s.descriptors, DescriptorKey(purpose.eservice, agreement.descriptor)))
  }

  /** The entry built in memory from the first retrieval. */
  function NewEntry(consumer: TenantId, publicKey: string, r: Retrieved): TokenEntry {
    var e0 := PartialEntry(consumer, publicKey);
    if r.purpose.None? then e0
    else
      var e1 := e0.(agreementKey := Some(AgreementKey(consumer, r.purpose.value.eservice)),
                    purposeState := Some(r.purpose.value.state),
                    purposeVersionId := Some(r.purpose.value.versionId));
      var e2 :=
        if r.agreement.None? then e1
        else e1.(agreementId := Some(r.agreement.value.agreementId),
                 agreementState := Some(r.agreement.value.state),
                 descriptorKey := Some(DescriptorKey(r.purpose.value.eservice, r.agreement.value.descriptor)));
      if r.catalog.None? then e2
      else e2.(descriptorState := Some(r.catalog.value.state),
               audience := Some(r.catalog.value.audience),
               lifespan := Some(r.catalog.value.lifespan))
  }

  /** What a put stores of an entry: attributes with a falsy value are left out, so a voucher
      lifespan of zero is lost. */
  function Stored(e: TokenEntry): TokenEntry {
    if e.ConsumerEntry? && e.lifespan == Some(0) then e.(lifespan := None) else e
  }

  predicate AudienceChanged(before: Option<seq<string>>, after: seq<string>) {
    before.None? || exists a :: a in before.value && a !in after
  }

  /** The second retrieval: fields whose new value differs from the entry in memory are rewritten in
      the stored entry `d`.  It does not touch agreementId, and it compares audiences by inclusion. */
  function Rechecked(e: TokenEntry, d: TokenEntry, r: Retrieved): TokenEntry
    requires e.ConsumerEntry? && d.ConsumerEntry?
  {
    if r.purpose.None? then d
    else
      var p := r.purpose.value;
      var home := Some(AgreementKey(p.consumer, p.eservice));
      var d1 := d.(agreementKey := if e.agreementKey != home then home else d.agreementKey,
                   purposeVersionId := if e.purposeVersionId != Some(p.versionId) then Some(p.versionId)
                     else d.purposeVersionId,
                   purposeState := if e.purposeState != Some(p.state) then Some(p.state) else d.purposeState);
      if r.agreement.None? then d1
      else
        var a := r.agreement.value;
        var target := Some(DescriptorKey(p.eservice, a.descriptor));
        var d2 := d1.(descriptorKey := if e.descriptorKey != target then target else d1.descriptorKey,
                      agreementState := if e.agreementState != Some(a.state) then Some(a.state) else d1.agreementState);
        if r.catalog.None? then d2
        else
          var c := r.catalog.value;
          d2.(audience := if AudienceChanged(e.audience, c.audience) then Some(c.audience) else d2.audience,
              lifespan := if e.lifespan != Some(c.lifespan) then Some(c.lifespan) else d2.lifespan,
              descriptorState := if e.descriptorState != Some(c.state) then Some(c.state) else d2.descriptorState)
  }

  /** The entry once both checks have run with the rows unchanged in between. */
  function JoinedEntry(s: Rows, consumer: TenantId, publicKey: string, p: PurposeId): TokenEntry {
    var e := NewEntry(consumer, publicKey, Retrieve(s, p));
    Rechecked(e, Stored(e), Retrieve(s, p))
  }

  function FirstPem(keys: seq<Key>, kid: string): Option<string> {
    if keys == [] then None
    else if keys[0].kid == kid then Some(keys[0].encodedPem)
    else FirstPem(keys[1..], kid)
  }

  /** The key's material when the keys are upserted one after the other. */
  function LastPem(keys: seq<Key>, kid: string): string
    requires exists k :: k in keys && k.kid == kid
  {
    if keys[|keys| - 1].kid == kid then keys[|keys| - 1].encodedPem
    else
      assert forall k :: k in keys <==> k in keys[..|keys| - 1] || k == keys[|keys| - 1];
      LastPem(keys[..|keys| - 1], kid)
  }

  function Kids(keys: seq<Key>): set<string> {
    set k | k in keys :: k.kid
  }

  function PurposeSet(purposes: seq<PurposeId>): set<PurposeId> {
    set p | p in purposes
  }

  function CompleteKeys(c: ClientId, kids: set<string>, purposes: set<PurposeId>): (r: set<TokenKey>)
    ensures forall pk :: pk in r <==> pk.ClientKidPurpose? && pk.client == c && pk.kid in kids && pk.purpose in purposes
  {
    set kid, p | kid in kids && p in purposes :: ClientKidPurpose(c, kid, p)
  }

  function PartialKeys(c: ClientId, kids: set<string>): (r: set<TokenKey>)
    ensures forall pk :: pk in r <==> pk.ClientKid? && pk.client == c && pk.kid in kids
  {
    set kid | kid in kids :: ClientKid(c, kid)
  }

  /** What is first put for one key and some purposes, and what the recheck leaves. */
  function KeyEntries(s: Rows, client: Client, kid: string, pem: string, purposes: set<PurposeId>): Tokens {
    map pk | pk in CompleteKeys(client.id, {kid}, purposes) ::
      Stored(NewEntry(client.consumer, pem, Retrieve(s, pk.purpose)))
  }

  function RecheckedKeyEntries(s: Rows, client: Client, kid: string, pem: string, purposes: set<PurposeId>): Tokens {
    map pk | pk in CompleteKeys(client.id, {kid}, purposes) :: JoinedEntry(s, client.consumer, pem, pk.purpose)
  }

  /** The same for one purpose and some keys. */
  function PurposeEntries(s: Rows, client: Client, p: PurposeId, kids: set<string>): Tokens
    requires kids <= Kids(client.keys)
  {
    map pk | pk in CompleteKeys(client.id, kids, {p}) ::
      Stored(NewEntry(client.consumer, LastPem(client.keys, pk.kid), Retrieve(s, p)))
  }

  function RecheckedPurposeEntries(s: Rows, client: Client, p: PurposeId, kids: set<string>): Tokens
    requires kids <= Kids(client.keys)
  {
    map pk | pk in CompleteKeys(client.id, kids, {p}) ::
      JoinedEntry(s, client.consumer, LastPem(client.keys, pk.kid), p)
  }

  /** Keys of the entries that a V2 message about the whole client names. */
  function ClientTokenKeys(client: Client): set<TokenKey> {
    if |client.purposes| > 0 then CompleteKeys(client.id, Kids(client.keys), PurposeSet(client.purposes))
    else PartialKeys(client.id, Kids(client.keys))
  }

  function PlanOf(s: Rows, m: ClientMessage): Result<Plan, WriterError> {
    var client := m.client;
    var existing := Lookup(s.clients, client.id);
    var newer := existing.Some? && existing.value.version > m.version;
    var row := PutClient(client.id, ClientRow(client.kind, client.consumer, [], m.version));
    match m.kind
    case ClientKeyAdded(kid) =>
      var pem := FirstPem(client.keys, kid);
      if pem.None? || pem.value == "" then Err(MissingKey)
      else if newer then Ok(SKIP)
      else if client.kind == ApiClient then
        Ok(Plan(row, PutTokens(map[ClientKid(client.id, kid) := ApiEntry(client.consumer, pem.value)]), Nothing,
                Nothing))
      else
        Ok(Plan(row, PutTokens(KeyEntries(s, client, kid, pem.value, PurposeSet(client.purposes))),
                PutTokens(RecheckedKeyEntries(s, client, kid, pem.value, PurposeSet(client.purposes))), Nothing))
    case ClientKeyDeleted(kid) =>
      if newer then Ok(SKIP)
      else
        Ok(Plan(row,
                DropTokens(if |client.purposes| > 0 then CompleteKeys(client.id, {kid}, PurposeSet(client.purposes))
                           else {ClientKid(client.id, kid)}),
                Nothing, Nothing))
    case ClientPurposeAdded(p) =>
      if newer then Ok(SKIP)
      else
        Ok(Plan(row, PutTokens(PurposeEntries(s, client, p, Kids(client.keys))),
                DropTokens(PartialKeys(client.id, Kids(client.keys))),
                PutTokens(RecheckedPurposeEntries(s, client, p, Kids(client.keys)))))
    case ClientPurposeRemoved(p) =>
      if existing.None? || newer then Ok(SKIP)
      else
        Ok(Plan(PutClient(client.id, existing.value.(purposes := [], version := m.version)),
                DropTokens(CompleteKeys(client.id, Kids(client.keys), {p})), Nothing, Nothing))
    case ClientDeleted =>
      Ok(Plan(DropClient(client.id), DropTokens(ClientTokenKeys(client)), Nothing, Nothing))
    case OtherClientEvent => Ok(SKIP)
  }
}
