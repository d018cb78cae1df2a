/** The entries of a consumer client once the V2 messages take over from the V1 ones.  A V2 message
    carries the whole client, and the handlers name the entries they write and delete from it. */
module MigrationShape {
  import opened Wrappers
  import opened Domain
  import opened Tables
  import opened Effects
  import opened AuthorizationWriter
  import opened Platform
  import opened ClientShape
  import opened ClientOutcomes

  /** The kids and purposes of a client, as its last message tells; none once it is deleted. */
  datatype Profile = Profile(kids: set<string>, purposes: set<PurposeId>)

  function ProfileOf(client: Client): Profile {
    Profile(Kids(client.keys), PurposeSet(client.purposes))
  }

  function OwnOf(keys: set<TokenKey>, c: ClientId): set<TokenKey> {
    set pk | pk in keys && pk.client == c
  }

  function OwnKeys(t: Tokens, c: ClientId): set<TokenKey> {
    OwnOf(t.Keys, c)
  }

  /** Complete entries are exactly kids times purposes; partial ones are of current kids, and only of a
      client without purposes. */
  predicate Shaped(keys: set<TokenKey>, c: ClientId, p: Option<Profile>) {
    match p
    case None => keys == {}
    case Some(profile) =>
      && (forall pk :: pk in keys && pk.ClientKidPurpose? ==> pk in CompleteKeys(c, profile.kids, profile.purposes))
      && (forall pk :: pk in CompleteKeys(c, profile.kids, profile.purposes) ==> pk in keys)
      && (forall pk :: pk in keys && pk.ClientKid? ==> pk.kid in profile.kids && profile.purposes == {})
  }

  /** The message tells of the client that the one before told of, changed as the message says; once
      deleted, the client is only heard of again if its deletion is delivered again. */
  predicate Follows(before: Option<Profile>, m: ClientMessage) {
    var after := ProfileOf(m.client);
    if before.None? then m.kind.ClientDeleted?
    else
      match m.kind
      case ClientKeyAdded(kid) =>
        m.client.kind == ConsumerClient && FirstPem(m.client.keys, kid).Some?
          && FirstPem(m.client.keys, kid).value != ""
        && after == before.value.(kids := before.value.kids + {kid})
      case ClientKeyDeleted(kid) => after == before.value.(kids := before.value.kids - {kid})
      case ClientPurposeAdded(p) => after == before.value.(purposes := before.value.purposes + {p})
      case ClientPurposeRemoved(p) => after == before.value.(purposes := before.value.purposes - {p})
      case ClientDeleted => after == before.value
      case OtherClientEvent => after == before.value
  }

  function ProfileThen(before: Option<Profile>, m: ClientMessage): Option<Profile> {
    if m.kind.ClientDeleted? then None else Some(ProfileOf(m.client))
  }

  /** A run that takes the client `c` from a profile and version on, its messages in version order and
      possibly delivered more than once. */
  datatype Origin = Origin(profile: Profile, version: int)

  predicate IsAbout(c: ClientId, m: Message) {
    m.OnClient? && m.clientMessage.client.id == c
  }

  function ProfileAfter(c: ClientId, o: Origin, ms: seq<Message>): Option<Profile> {
    if ms == [] then Some(o.profile)
    else
      var before, m := ProfileAfter(c, o, ms[..|ms| - 1]), ms[|ms| - 1];
      if IsAbout(c, m) then ProfileThen(before, m.clientMessage) else before
  }

  function VersionAfter(c: ClientId, o: Origin, ms: seq<Message>): int {
    if ms == [] then o.version
    else if IsAbout(c, ms[|ms| - 1]) then ms[|ms| - 1].clientMessage.version
    else VersionAfter(c, o, ms[..|ms| - 1])
  }

  predicate InSequence(c: ClientId, o: Origin, ms: seq<Message>) {
    ms == [] ||
    (var before, m := ms[..|ms| - 1], ms[|ms| - 1];
     && InSequence(c, o, before)
     && (IsAbout(c, m) ==>
           Follows(ProfileAfter(c, o, before), m.clientMessage)
             && VersionAfter(c, o, before) <= m.clientMessage.version))
  }

  /* ---- the keys that a handled message leaves ---- */

  function KeysThen(keys: set<TokenKey>, f: Effect): set<TokenKey> {
    match f
    case PutTokens(entries) => keys + entries.Keys
    case DropTokens(dropped) => keys - dropped
    case _ => keys
  }

  lemma EffectOnKeys(t: Tokens, f: Effect)
    ensures OnTokens(t, f).Keys == KeysThen(t.Keys, f)
  {
  }

  /** The effect writes no entry of the client. */
  predicate SparesClient(f: Effect, c: ClientId) {
    && (f.PutTokens? ==> forall pk :: pk in f.entries ==> pk.client != c)
    && (f.DropTokens? ==> forall pk :: pk in f.keys ==> pk.client != c)
  }

  predicate SparesClientRow(f: Effect, c: ClientId) {
    (f.PutClient? || f.DropClient?) ==> f.client != c
  }

  lemma SparingEffect(s: Store, f: Effect, c: ClientId)
    requires SparesClient(f, c) && SparesClientRow(f, c)
    ensures OwnKeys(Apply(s, f).tokens, c) == OwnKeys(s.tokens, c)
    ensures Lookup(Apply(s, f).rows.clients, c) == Lookup(s.rows.clients, c)
  {
    EffectOnKeys(s.tokens, f);
    var t := Apply(s, f).tokens;
    forall pk: TokenKey | pk.client == c ensures pk in t <==> pk in s.tokens {
      assert pk in t <==> pk in t.Keys;
    }
  }

  predicate SparingPlan(p: Plan, c: ClientId) {
    && SparesClient(p.first, c) && SparesClient(p.second, c) && SparesClient(p.third, c) && SparesClient(p.fourth, c)
    && SparesClientRow(p.first, c) && SparesClientRow(p.second, c) && SparesClientRow(p.third, c)
    && SparesClientRow(p.fourth, c)
  }

  lemma SparingRun(s: Store, p: Plan, c: ClientId)
    requires SparingPlan(p, c)
    ensures OwnKeys(Run(s, p).tokens, c) == OwnKeys(s.tokens, c)
    ensures Lookup(Run(s, p).rows.clients, c) == Lookup(s.rows.clients, c)
  {
    var s1 := Apply(s, p.first);
    var s2 := Apply(s1, p.second);
    SparingEffect(s, p.first, c);
    SparingEffect(s1, p.second, c);
    SparingEffect(s2, p.third, c);
    SparingEffect(Apply(s2, p.third), p.fourth, c);
  }

  lemma UpstreamPlansSpare(s: Rows, m: Message, c: ClientId)
    requires !m.OnClient? && PlanFor(s, m).Ok?
    ensures SparingPlan(PlanFor(s, m).value, c)
  {
  }

  lemma OtherClientsPlansSpare(s: Rows, m: ClientMessage, c: ClientId)
    requires m.client.id != c && AuthorizationWriter.PlanOf(s, m).Ok?
    ensures SparingPlan(AuthorizationWriter.PlanOf(s, m).value, c)
  {
  }

  lemma OtherPlansSpare(s: Rows, m: Message, c: ClientId)
    requires !IsAbout(c, m) && PlanFor(s, m).Ok?
    ensures SparingPlan(PlanFor(s, m).value, c)
  {
    if m.OnClient? {
      OtherClientsPlansSpare(s, m.clientMessage, c);
    } else {
      UpstreamPlansSpare(s, m, c);
    }
  }

  lemma OtherMessagesSpare(s: Store, m: Message, c: ClientId)
    requires !IsAbout(c, m)
    ensures OwnKeys(Handle(s, m).tokens, c) == OwnKeys(s.tokens, c)
    ensures Lookup(Handle(s, m).rows.clients, c) == Lookup(s.rows.clients, c)
  {
    if PlanFor(s.rows, m).Ok? {
      OtherPlansSpare(s.rows, m, c);
      SparingRun(s, PlanFor(s.rows, m).value, c);
    }
  }

  /** The keys of the table after a client message that is not outdated. */
  function KeysAfter(keys: set<TokenKey>, m: ClientMessage): set<TokenKey> {
    var c, p := m.client.id, ProfileOf(m.client);
    match m.kind
    case ClientKeyAdded(kid) => keys + CompleteKeys(c, {kid}, p.purposes)
    case ClientKeyDeleted(kid) =>
      keys - (if |m.client.purposes| > 0 then CompleteKeys(c, {kid}, p.purposes) else {ClientKid(c, kid)})
    case ClientPurposeAdded(q) => keys + CompleteKeys(c, p.kids, {q}) - PartialKeys(c, p.kids)
    case ClientPurposeRemoved(q) => keys - CompleteKeys(c, p.kids, {q})
    case ClientDeleted => keys - ClientTokenKeys(m.client)
    case OtherClientEvent => keys
  }

  /** The client row is there, and not from a later message. */
  predicate RowUpTo(s: Rows, c: ClientId, version: int) {
    c in s.clients && s.clients[c].version <= version
  }

  lemma RunKeys(s: Store, p: Plan)
    ensures Run(s, p).tokens.Keys
            == KeysThen(KeysThen(KeysThen(KeysThen(s.tokens.Keys, p.first), p.second), p.third), p.fourth)
  {
    var s1 := Apply(s, p.first);
    var s2 := Apply(s1, p.second);
    EffectOnKeys(s.tokens, p.first);
    EffectOnKeys(s1.tokens, p.second);
    EffectOnKeys(s2.tokens, p.third);
    EffectOnKeys(Apply(s2, p.third).tokens, p.fourth);
  }

  predicate Timely(s: Rows, m: ClientMessage) {
    && (m.client.id in s.clients ==> s.clients[m.client.id].version <= m.version)
    && (m.kind.ClientPurposeRemoved? ==> m.client.id in s.clients)
    && (m.kind.ClientKeyAdded? ==>
          m.client.kind == ConsumerClient && FirstPem(m.client.keys, m.kind.kid).Some?
            && FirstPem(m.client.keys, m.kind.kid).value != "")
  }

  lemma KeyEntriesKeys(s: Rows, client: Client, kid: string, pem: string, p: PurposeId)
    ensures KeyEntries(s, client, kid, pem, PurposeSet(client.purposes)).Keys
            == CompleteKeys(client.id, {kid}, PurposeSet(client.purposes))
    ensures RecheckedKeyEntries(s, client, kid, pem, PurposeSet(client.purposes)).Keys
            == CompleteKeys(client.id, {kid}, PurposeSet(client.purposes))
    ensures PurposeEntries(s, client, p, Kids(client.keys)).Keys == CompleteKeys(client.id, Kids(client.keys), {p})
    ensures RecheckedPurposeEntries(s, client, p, Kids(client.keys)).Keys
            == CompleteKeys(client.id, Kids(client.keys), {p})
  {
  }

  /** The token effects of a plan, in terms of keys. */
  lemma PlanKeys(s: Rows, m: ClientMessage, keys: set<TokenKey>)
    requires Timely(s, m)
    ensures var plan := AuthorizationWriter.PlanOf(s, m);
            && plan.Ok?
            && var p := plan.value;
               KeysThen(KeysThen(KeysThen(KeysThen(keys, p.first), p.second), p.third), p.fourth) == KeysAfter(keys, m)
  {
    if m.kind.ClientKeyAdded? {
      KeyEntriesKeys(s, m.client, m.kind.kid, FirstPem(m.client.keys, m.kind.kid).value, PurposeId(""));
    } else if m.kind.ClientPurposeAdded? {
      KeyEntriesKeys(s, m.client, "", "", m.kind.purpose);
    }
  }

  predicate LeavesClientRows(f: Effect) {
    !f.PutClient? && !f.DropClient?
  }

  lemma PlanRow(s: Rows, m: ClientMessage)
    requires Timely(s, m)
    ensures var plan := AuthorizationWriter.PlanOf(s, m);
            && plan.Ok?
            && var p := plan.value;
               && LeavesClientRows(p.second) && LeavesClientRows(p.third) && LeavesClientRows(p.fourth)
               && (m.kind.OtherClientEvent? ==> LeavesClientRows(p.first))
               && (m.kind.ClientDeleted? ==> p.first == DropClient(m.client.id))
               && (!m.kind.OtherClientEvent? && !m.kind.ClientDeleted? ==>
                     p.first.PutClient? && p.first.client == m.client.id && p.first.clientRow.version == m.version)
  {
  }

  lemma ClientRowsLeft(s: Store, f: Effect)
    requires LeavesClientRows(f)
    ensures Apply(s, f).rows.clients == s.rows.clients
  {
  }

  lemma RunRow(s: Store, p: Plan)
    requires LeavesClientRows(p.second) && LeavesClientRows(p.third) && LeavesClientRows(p.fourth)
    ensures Run(s, p).rows.clients == OnRows(s.rows, p.first).clients
  {
    var s1 := Apply(s, p.first);
    var s2 := Apply(s1, p.second);
    ClientRowsLeft(s1, p.second);
    ClientRowsLeft(s2, p.third);
    ClientRowsLeft(Apply(s2, p.third), p.fourth);
  }

  lemma OwnMessage(s: Store, m: ClientMessage)
    requires Timely(s.rows, m)
    ensures Handle(s, OnClient(m)).tokens.Keys == KeysAfter(s.tokens.Keys, m)
    ensures !m.kind.ClientDeleted? && RowUpTo(s.rows, m.client.id, m.version) ==>
              RowUpTo(Handle(s, OnClient(m)).rows, m.client.id, m.version)
    ensures m.kind.ClientDeleted? ==> m.client.id !in Handle(s, OnClient(m)).rows.clients
  {
    var plan := AuthorizationWriter.PlanOf(s.rows, m);
    PlanKeys(s.rows, m, s.tokens.Keys);
    RunKeys(s, plan.value);
    PlanRow(s.rows, m);
    RunRow(s, plan.value);
  }

  /** On sets of keys: a message takes the shape of the client before to that of the client after. */
  lemma KeysStayShaped(keys: set<TokenKey>, c: ClientId, before: Option<Profile>, m: ClientMessage)
    requires m.client.id == c && Follows(before, m)
    requires Shaped(OwnOf(keys, c), c, before)
    ensures Shaped(OwnOf(KeysAfter(keys, m), c), c, ProfileThen(before, m))
  {
    assert |m.client.purposes| > 0 ==> m.client.purposes[0] in PurposeSet(m.client.purposes);
  }

  /** Migration: a client that the V1 writer left in shape is kept in shape by every V2 run, whatever
      other messages the run interleaves with the client's own; its deletion leaves no entry. */
  lemma MigrationKeepsShape(c: ClientId, a: Account, s: Store, ms: seq<Message>)
    requires Represents(Lookup(s.rows.clients, c), s.tokens, c, Some(a))
    requires InSequence(c, Origin(Profile(a.keys.Keys, a.purposes), a.version), ms)
    ensures var p := ProfileAfter(c, Origin(Profile(a.keys.Keys, a.purposes), a.version), ms);
            Shaped(OwnKeys(RunFrom(s, ms).tokens, c), c, p)
  {
    RunStaysShaped(c, Origin(Profile(a.keys.Keys, a.purposes), a.version), s, ms);
  }

  lemma {:induction false} RunStaysShaped(c: ClientId, o: Origin, s: Store, ms: seq<Message>)
    requires InSequence(c, o, ms)
    requires Shaped(OwnKeys(s.tokens, c), c, Some(o.profile)) && RowUpTo(s.rows, c, o.version)
    ensures Shaped(OwnKeys(RunFrom(s, ms).tokens, c), c, ProfileAfter(c, o, ms))
    ensures ProfileAfter(c, o, ms).Some? ==> RowUpTo(RunFrom(s, ms).rows, c, VersionAfter(c, o, ms))
    ensures ProfileAfter(c, o, ms).None? ==> c !in RunFrom(s, ms).rows.clients
  {
    if ms != [] {
      var before, m := ms[..|ms| - 1], ms[|ms| - 1];
      RunStaysShaped(c, o, s, before);
      var s1 := RunFrom(s, before);
      if IsAbout(c, m) {
        OwnMessage(s1, m.clientMessage);
        KeysStayShaped(s1.tokens.Keys, c, ProfileAfter(c, o, before), m.clientMessage);
      } else {
        OtherMessagesSpare(s1, m, c);
      }
    }
  }

  /* ---- whose material the entries carry ---- */

  /** A client's consumer, and its keys' material by kid. */
  datatype Keyring = Keyring(consumer: TenantId, pems: map<string, string>)

  predicate Tells(client: Client, r: Keyring) {
    && client.consumer == r.consumer
    && (forall k :: k in client.keys ==> k.kid in r.pems && r.pems[k.kid] == k.encodedPem)
    && (forall kid :: kid in r.pems ==> exists k :: k in client.keys && k.kid == kid)
  }

  /** A key keeps its material from one message to the next. */
  predicate SameKeys(r: Keyring, r1: Keyring) {
    r1.consumer == r.consumer && forall kid :: kid in r.pems && kid in r1.pems ==> r1.pems[kid] == r.pems[kid]
  }

  /** What the run's messages tell of the client's keys, one ring before each message and one at the end. */
  predicate Ringed(c: ClientId, rings: seq<Keyring>, ms: seq<Message>) {
    && |rings| == |ms| + 1
    && forall n :: 0 <= n < |ms| ==>
         if IsAbout(c, ms[n]) then Tells(ms[n].clientMessage.client, rings[n + 1]) && SameKeys(rings[n], rings[n + 1])
         else rings[n + 1] == rings[n]
  }

  /** Every entry of the client carries its consumer and the material of the key with its kid. */
  predicate Carries(t: Tokens, c: ClientId, r: Keyring) {
    forall pk :: pk in t && pk.client == c && pk.kid in r.pems ==> EntryShows(t[pk], r.consumer, r.pems[pk.kid])
  }

  lemma PatchesSpareMaterial(s: Store, m: Message, pk: TokenKey)
    requires !m.OnClient?
    ensures pk in Handle(s, m).tokens <==> pk in s.tokens
    ensures pk in s.tokens ==>
              var e, e1 := s.tokens[pk], Handle(s, m).tokens[pk];
              e1.ConsumerEntry? == e.ConsumerEntry? && e1.consumer == e.consumer && e1.publicKey == e.publicKey
  {
    var plan := PlanFor(s.rows, m);
    if plan.Ok? {
      PatchingPlan(s.rows, m);
      RunSparesMaterial(s, plan.value, pk);
    }
  }

  predicate Patches(f: Effect) {
    !f.PutTokens? && !f.DropTokens?
  }

  lemma PatchingPlan(s: Rows, m: Message)
    requires !m.OnClient? && PlanFor(s, m).Ok?
    ensures var p := PlanFor(s, m).value; Patches(p.first) && Patches(p.second) && Patches(p.third) && Patches(p.fourth)
  {
  }

  lemma PatchSparesMaterial(s: Store, f: Effect, pk: TokenKey)
    requires Patches(f)
    ensures pk in Apply(s, f).tokens <==> pk in s.tokens
    ensures pk in s.tokens ==>
              var e, e1 := s.tokens[pk], Apply(s, f).tokens[pk];
              e1.ConsumerEntry? == e.ConsumerEntry? && e1.consumer == e.consumer && e1.publicKey == e.publicKey
  {
  }

  lemma RunSparesMaterial(s: Store, p: Plan, pk: TokenKey)
    requires Patches(p.first) && Patches(p.second) && Patches(p.third) && Patches(p.fourth)
    ensures pk in Run(s, p).tokens <==> pk in s.tokens
    ensures pk in s.tokens ==>
              var e, e1 := s.tokens[pk], Run(s, p).tokens[pk];
              e1.ConsumerEntry? == e.ConsumerEntry? && e1.consumer == e.consumer && e1.publicKey == e.publicKey
  {
    var s1 := Apply(s, p.first);
    var s2 := Apply(s1, p.second);
    PatchSparesMaterial(s, p.first, pk);
    PatchSparesMaterial(s1, p.second, pk);
    PatchSparesMaterial(s2, p.third, pk);
    PatchSparesMaterial(Apply(s2, p.third), p.fourth, pk);
  }

  lemma OtherMessagesKeepMaterial(s: Store, m: Message, c: ClientId, r: Keyring)
    requires !IsAbout(c, m) && Carries(s.tokens, c, r)
    ensures Carries(Handle(s, m).tokens, c, r)
  {
    var t := Handle(s, m).tokens;
    forall pk | pk in t && pk.client == c && pk.kid in r.pems ensures EntryShows(t[pk], r.consumer, r.pems[pk.kid]) {
      if m.OnClient? {
        OtherClientSparesEntry(s, m.clientMessage, pk);
      } else {
        PatchesSpareMaterial(s, m, pk);
      }
    }
  }

  lemma OtherClientSparesEntry(s: Store, m: ClientMessage, pk: TokenKey)
    requires m.client.id != pk.client
    ensures Lookup(Handle(s, OnClient(m)).tokens, pk) == Lookup(s.tokens, pk)
  {
    var plan := AuthorizationWriter.PlanOf(s.rows, m);
    if plan.Ok? {
      OtherClientsPlansSpare(s.rows, m, pk.client);
      SparedEntry(s, plan.value, pk);
    }
  }

  predicate SparesEntry(f: Effect, pk: TokenKey) {
    !f.PatchTokens? && SparesClient(f, pk.client)
  }

  lemma SparedEntry(s: Store, p: Plan, pk: TokenKey)
    requires SparesEntry(p.first, pk) && SparesEntry(p.second, pk)
    requires SparesEntry(p.third, pk) && SparesEntry(p.fourth, pk)
    ensures Lookup(Run(s, p).tokens, pk) == Lookup(s.tokens, pk)
  {
  }

  /** A message of the client itself that is not outdated. */
  lemma OwnMessageKeepsMaterial(s: Store, m: ClientMessage, before: Option<Profile>, r: Keyring, r1: Keyring)
    requires Timely(s.rows, m) && Follows(before, m) && Tells(m.client, r1) && SameKeys(r, r1)
    requires Carries(s.tokens, m.client.id, r)
    requires forall pk :: pk in s.tokens && pk.client == m.client.id ==> pk.kid in r.pems
    ensures !m.kind.ClientDeleted? ==> Carries(Handle(s, OnClient(m)).tokens, m.client.id, r1)
  {
    if !m.kind.ClientDeleted? {
      var t := Handle(s, OnClient(m)).tokens;
      forall pk | pk in t && pk.client == m.client.id && pk.kid in r1.pems
        ensures EntryShows(t[pk], r1.consumer, r1.pems[pk.kid])
      {
        EntryKeepsMaterial(s, m, r, r1, pk);
      }
    }
  }

  lemma EntryKeepsMaterial(s: Store, m: ClientMessage, r: Keyring, r1: Keyring, pk: TokenKey)
    requires Timely(s.rows, m) && Tells(m.client, r1) && SameKeys(r, r1) && !m.kind.ClientDeleted?
    requires pk.client == m.client.id && pk.kid in r1.pems && pk in Handle(s, OnClient(m)).tokens
    requires pk in s.tokens ==> pk.kid in r.pems && EntryShows(s.tokens[pk], r.consumer, r.pems[pk.kid])
    ensures EntryShows(Handle(s, OnClient(m)).tokens[pk], r1.consumer, r1.pems[pk.kid])
  {
    match m.kind
    case ClientKeyAdded(kid) =>
      var i := FirstIndex(m.client.keys, kid);
      ConsumerKeyAdded(s, m, i, pk);
      assert m.client.keys[i] in m.client.keys;
    case ClientKeyDeleted(_) => KeyEntriesRemoved(s, m, pk);
    case ClientPurposeAdded(p) =>
      var i := LastIndex(m.client.keys, pk.kid);
      PurposeEntriesAdded(s, m, pk);
      assert m.client.keys[i] in m.client.keys;
    case ClientPurposeRemoved(_) => PurposeEntriesRemoved(s, m, pk);
    case ClientDeleted =>
    case OtherClientEvent =>
  }

  lemma {:induction false} FirstIndex(keys: seq<Key>, kid: string) returns (i: nat)
    requires FirstPem(keys, kid).Some? && FirstPem(keys, kid).value != ""
    ensures FirstOfKid(keys, kid, i) && keys[i].encodedPem != ""
  {
    if keys[0].kid == kid {
      i := 0;
    } else {
      var n := FirstIndex(keys[1..], kid);
      assert forall k :: 0 <= k < n ==> keys[1..][k] == keys[k + 1];
      i := n + 1;
      forall k | 0 <= k < i ensures keys[k].kid != kid {
        assert k > 0 ==> keys[1..][k - 1] == keys[k];
      }
    }
  }

  lemma {:induction false} LastIndex(keys: seq<Key>, kid: string) returns (i: nat)
    requires exists k :: k in keys && k.kid == kid
    ensures LastOfKid(keys, kid, i)
  {
    var last := |keys| - 1;
    if keys[last].kid == kid {
      i := last;
    } else {
      assert forall k :: k in keys <==> k in keys[..last] || k == keys[last];
      i := LastIndex(keys[..last], kid);
      assert forall k :: 0 <= k < last ==> keys[..last][k] == keys[k];
    }
  }

  /** Migration and material: in every V2 run after V1, each entry of the client is a consumer entry with
      the client's consumer and the material of its key with the entry's kid. */
  lemma MigrationKeepsMaterial(c: ClientId, a: Account, s: Store, rings: seq<Keyring>, ms: seq<Message>)
    requires Represents(Lookup(s.rows.clients, c), s.tokens, c, Some(a))
    requires InSequence(c, Origin(Profile(a.keys.Keys, a.purposes), a.version), ms)
    requires Ringed(c, rings, ms) && rings[0] == Keyring(a.consumer, a.keys)
    ensures forall pk :: pk in RunFrom(s, ms).tokens && pk.client == c ==>
              && pk.kid in rings[|ms|].pems
              && EntryShows(RunFrom(s, ms).tokens[pk], a.consumer, rings[|ms|].pems[pk.kid])
  {
    var o := Origin(Profile(a.keys.Keys, a.purposes), a.version);
    StartOfMigration(Lookup(s.rows.clients, c), s.tokens, c, a);
    RunCarries(c, o, s, rings, ms);
    RunStaysShaped(c, o, s, ms);
    MaterialOfShaped(RunFrom(s, ms).tokens, c, ProfileAfter(c, o, ms), rings[|ms|]);
  }

  lemma StartOfMigration(row: Option<ClientRow>, t: Tokens, c: ClientId, a: Account)
    requires Represents(row, t, c, Some(a))
    ensures Shaped(OwnKeys(t, c), c, Some(Profile(a.keys.Keys, a.purposes)))
    ensures row.Some? && row.value.version == a.version
    ensures Carries(t, c, Keyring(a.consumer, a.keys))
  {
  }

  lemma MaterialOfShaped(t: Tokens, c: ClientId, p: Option<Profile>, r: Keyring)
    requires Shaped(OwnKeys(t, c), c, p) && (p.Some? ==> p.value.kids == r.pems.Keys && Carries(t, c, r))
    ensures forall pk :: pk in t && pk.client == c ==>
              pk.kid in r.pems && EntryShows(t[pk], r.consumer, r.pems[pk.kid])
  {
    forall pk | pk in t && pk.client == c
      ensures pk.kid in r.pems && EntryShows(t[pk], r.consumer, r.pems[pk.kid])
    {
      assert pk in OwnKeys(t, c);
    }
  }

  /** As long as there is a client, its kids are those of the ring. */
  lemma {:induction false} RunCarries(c: ClientId, o: Origin, s: Store, rings: seq<Keyring>, ms: seq<Message>)
    requires InSequence(c, o, ms) && Ringed(c, rings, ms) && rings[0].pems.Keys == o.profile.kids
    requires Shaped(OwnKeys(s.tokens, c), c, Some(o.profile)) && RowUpTo(s.rows, c, o.version)
    requires Carries(s.tokens, c, rings[0])
    ensures rings[|ms|].consumer == rings[0].consumer
    ensures ProfileAfter(c, o, ms).Some? ==> rings[|ms|].pems.Keys == ProfileAfter(c, o, ms).value.kids
    ensures ProfileAfter(c, o, ms).Some? ==> Carries(RunFrom(s, ms).tokens, c, rings[|ms|])
  {
    if ms != [] {
      var before, m, n := ms[..|ms| - 1], ms[|ms| - 1], |ms| - 1;
      assert Ringed(c, rings[..|ms|], before) by {
        assert forall k :: 0 <= k < n ==> before[k] == ms[k];
      }
      RunCarries(c, o, s, rings[..|ms|], before);
      RunStaysShaped(c, o, s, before);
      var s1 := RunFrom(s, before);
      if !IsAbout(c, m) {
        if ProfileAfter(c, o, ms).Some? {
          OtherMessagesKeepMaterial(s1, m, c, rings[n]);
        }
      } else if ProfileAfter(c, o, before).Some? {
        forall pk | pk in s1.tokens && pk.client == c ensures pk.kid in rings[n].pems {
          assert pk in OwnKeys(s1.tokens, c);
        }
        OwnMessageKeepsMaterial(s1, m.clientMessage, ProfileAfter(c, o, before), rings[n], rings[n + 1]);
      }
    }
  }
}
