/** Which entries a consumer client should have: the state of the client that the V1 messages tell
    of, the entries that go with it, and what crashed attempts may leave in between. */
module ClientShape {
  import opened Wrappers
  import opened Domain
  import opened Tables
  import opened AuthorizationWriter

  datatype ClientEvent =
    | ClientAdded(consumer: TenantId, purposes: seq<PurposeId>)
    | KeysAdded(kid: string, pem: string)
    | KeyDeleted(kid: string)
    | PurposeAdded(purpose: PurposeId)
    | PurposeRemoved(purpose: PurposeId)
    | ClientGone
    | OtherEvent

  datatype ClientMessageV1 = ClientMessageV1(client: ClientId, event: ClientEvent, version: int)

  /** A consumer client as its messages describe it: its keys by kid, and its purposes. */
  datatype Account = Account(consumer: TenantId, keys: map<string, string>, purposes: set<PurposeId>, version: int)

  function Added(m: ClientMessageV1): Account
    requires m.event.ClientAdded?
  {
    Account(m.event.consumer, map[], PurposeSet(m.event.purposes), m.version)
  }

  /** The meaning of a message, for a client that exists and was not updated by a later one. */
  function Changed(a: Account, m: ClientMessageV1): Option<Account> {
    match m.event
    case ClientAdded(_, _) => Some(Added(m))
    case KeysAdded(kid, pem) => Some(a.(keys := a.keys[kid := pem], version := m.version))
    case KeyDeleted(kid) => Some(a.(keys := a.keys - {kid}, version := m.version))
    case PurposeAdded(p) => Some(a.(purposes := a.purposes + {p}, version := m.version))
    case PurposeRemoved(p) => Some(a.(purposes := a.purposes - {p}, version := m.version))
    case ClientGone => None
    case OtherEvent => Some(a)
  }

  function Next(a: Option<Account>, m: ClientMessageV1): Option<Account> {
    match a
    case None =>
      if m.event.ClientAdded? then Some(Added(m)) else None
    case Some(account) =>
      if account.version > m.version && !m.event.ClientGone? then a else Changed(account, m)
  }

  /** A client is added once; a later delivery of that message finds the client as it was added, or
      updated since. */
  predicate Plausible(a: Option<Account>, m: ClientMessageV1) {
    m.event.ClientAdded? && a.Some? ==>
      a.value.version > m.version || a.value == Added(m)
  }

  /** Keys times purposes, or one partial entry per key. */
  function Expected(c: ClientId, a: Option<Account>): (r: set<TokenKey>)
    ensures forall pk :: pk in r ==> pk.client == c && a.Some? && pk.kid in a.value.keys
  {
    if a.None? then {}
    else if a.value.purposes == {} then PartialKeys(c, a.value.keys.Keys)
    else CompleteKeys(c, a.value.keys.Keys, a.value.purposes)
  }

  predicate RowShows(row: Option<ClientRow>, a: Option<Account>) {
    match a
    case None => row.None?
    case Some(account) =>
      && row.Some? && row.value.kind == ConsumerClient && row.value.consumer == account.consumer
      && PurposeSet(row.value.purposes) == account.purposes && row.value.version == account.version
  }

  /** A consumer entry with the client's consumer and the material of its key. */
  predicate EntryShows(e: TokenEntry, consumer: TenantId, pem: string) {
    e.ConsumerEntry? && e.consumer == consumer && e.publicKey == pem
  }

  predicate EntriesShow(t: Tokens, c: ClientId, a: Option<Account>) {
    && (forall pk :: pk in t && pk.client == c ==>
          pk in Expected(c, a) && EntryShows(t[pk], a.value.consumer, a.value.keys[pk.kid]))
    && (forall pk :: pk in Expected(c, a) ==> pk in t)
  }

  /** The row and the entries are exactly those of the client. */
  predicate Represents(row: Option<ClientRow>, t: Tokens, c: ClientId, a: Option<Account>) {
    RowShows(row, a) && EntriesShow(t, c, a)
  }

  /** An entry left over from before the message or written by an attempt at it. */
  predicate Transitional(pk: TokenKey, e: TokenEntry, c: ClientId, a: Account, b: Option<Account>) {
    || (pk in Expected(c, Some(a)) && EntryShows(e, a.consumer, a.keys[pk.kid]))
    || (pk in Expected(c, b) && EntryShows(e, b.value.consumer, b.value.keys[pk.kid]))
  }

  /** While purposes come or go altogether, no key is without an entry. */
  predicate KeyHeld(t: Tokens, c: ClientId, kid: string, p: PurposeId) {
    ClientKid(c, kid) in t || ClientKidPurpose(c, kid, p) in t
  }

  /** What any number of attempts at `m` may have left of the client `a`: the row is the old or the
      new one, every entry is an old or a new one, and entries common to both are in place. */
  predicate Between(row: Option<ClientRow>, t: Tokens, c: ClientId, a: Account, m: ClientMessageV1) {
    var b := Next(Some(a), m);
    && (RowShows(row, Some(a)) || RowShows(row, b))
    && (forall pk :: pk in t && pk.client == c ==> Transitional(pk, t[pk], c, a, b))
    && (forall pk :: pk in Expected(c, Some(a)) && pk in Expected(c, b) ==> pk in t)
    && (m.event.PurposeAdded? || m.event.PurposeRemoved? ==>
          forall kid :: kid in a.keys && (a.purposes == {} || (b.Some? && b.value.purposes == {})) ==>
              KeyHeld(t, c, kid, m.event.purpose))
  }
}
