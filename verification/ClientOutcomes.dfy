/** What each V2 message about a client makes of the tables, told from the message alone: the client's
    row, which entries go and come, and whose key material they carry. */
module ClientOutcomes {
  import opened Wrappers
  import opened Domain
  import opened Tables
  import opened Effects
  import opened AuthorizationWriter
  import opened Platform

  /** The key at `i` is the first, or the last, of the kid. */
  predicate FirstOfKid(keys: seq<Key>, kid: string, i: nat) {
    i < |keys| && keys[i].kid == kid && forall k :: 0 <= k < i ==> keys[k].kid != kid
  }

  predicate LastOfKid(keys: seq<Key>, kid: string, i: nat) {
    i < |keys| && keys[i].kid == kid && forall k :: i < k < |keys| ==> keys[k].kid != kid
  }

  lemma {:induction false} FirstPemIsFirst(keys: seq<Key>, kid: string, i: nat)
    ensures FirstPem(keys, kid).Some? <==> exists k :: k in keys && k.kid == kid
    ensures FirstOfKid(keys, kid, i) ==> FirstPem(keys, kid) == Some(keys[i].encodedPem)
  {
    if keys != [] {
      FirstPemIsFirst(keys[1..], kid, if i > 0 then i - 1 else 0);
      assert forall k :: k in keys <==> k == keys[0] || k in keys[1..];
      assert forall k :: 0 <= k < |keys| - 1 ==> keys[1..][k] == keys[k + 1];
    }
  }

  lemma {:induction false} LastPemIsLast(keys: seq<Key>, kid: string, i: nat)
    requires LastOfKid(keys, kid, i)
    ensures (exists k :: k in keys && k.kid == kid) && LastPem(keys, kid) == keys[i].encodedPem
  {
    var before, last := keys[..|keys| - 1], |keys| - 1;
    assert keys[i] in keys;
    if i < last {
      assert forall k :: 0 <= k < last ==> before[k] == keys[k];
      LastPemIsLast(before, kid, i);
    }
  }

  /** The message is older than the client's row. */
  predicate OutdatedClient(s: Store, m: ClientMessage) {
    m.client.id in s.rows.clients && s.rows.clients[m.client.id].version > m.version
  }

  function RowsWithClient(s: Rows, m: ClientMessage): Rows {
    s.(clients := s.clients[m.client.id := ClientRow(m.client.kind, m.client.consumer, [], m.version)])
  }

  /** The handler fails exactly on an added key that the client does not have, or without material; a
      message older than the row does nothing, unless it deletes the client. */
  lemma ClientMessageIgnored(s: Store, m: ClientMessage, i: nat)
    ensures (forall k :: k in m.client.keys && m.kind.ClientKeyAdded? ==> k.kid != m.kind.kid) ==>
              (PlanFor(s.rows, OnClient(m)).Err? <==> m.kind.ClientKeyAdded?)
    ensures m.kind.ClientKeyAdded? && FirstOfKid(m.client.keys, m.kind.kid, i) ==>
              (PlanFor(s.rows, OnClient(m)).Err? <==> m.client.keys[i].encodedPem == "")
    ensures PlanFor(s.rows, OnClient(m)).Err? || m.kind.OtherClientEvent?
            || (OutdatedClient(s, m) && !m.kind.ClientDeleted?)
            || (m.kind.ClientPurposeRemoved? && m.client.id !in s.rows.clients) ==>
              Handle(s, OnClient(m)) == s
  {
    if m.kind.ClientKeyAdded? {
      FirstPemIsFirst(m.client.keys, m.kind.kid, i);
    }
  }

  /** Each row leads to the next one. */
  predicate Chained(r: Retrieved) {
    (r.agreement.Some? ==> r.purpose.Some?) && (r.catalog.Some? ==> r.agreement.Some?)
  }

  /** An entry put from one retrieval and rechecked with another shows the rows of the second one wherever
      that found them, and those of the first elsewhere.  Three columns are as the source leaves them: the
      agreement id is that of the first retrieval, an audience that lost nothing stays, and a lifespan of
      zero that stayed zero is missing. */
  lemma RecheckShows(consumer: TenantId, pem: string, first: Retrieved, second: Retrieved)
    requires Chained(first) && Chained(second)
    ensures var e := NewEntry(consumer, pem, first);
            var d := Rechecked(e, Stored(e), second);
            && d.ConsumerEntry? && d.consumer == consumer && d.publicKey == pem
            && d.purposeState == (if second.purpose.Some? then Some(second.purpose.value.state)
                                else if first.purpose.Some? then Some(first.purpose.value.state) else None)
            && d.purposeVersionId == (if second.purpose.Some? then Some(second.purpose.value.versionId)
                                      else if first.purpose.Some? then Some(first.purpose.value.versionId) else None)
            && d.agreementKey
               == (if second.purpose.Some?
                   then Some(AgreementKey(second.purpose.value.consumer, second.purpose.value.eservice))
                   else if first.purpose.Some? then Some(AgreementKey(consumer, first.purpose.value.eservice))
                   else None)
            && d.agreementId == (if first.agreement.Some? then Some(first.agreement.value.agreementId) else None)
            && d.agreementState == (if second.agreement.Some? then Some(second.agreement.value.state)
                                    else if first.agreement.Some? then Some(first.agreement.value.state) else None)
            && d.descriptorKey
               == (if second.agreement.Some?
                   then Some(DescriptorKey(second.purpose.value.eservice, second.agreement.value.descriptor))
                   else if first.agreement.Some?
                   then Some(DescriptorKey(first.purpose.value.eservice, first.agreement.value.descriptor)) else None)
            && d.descriptorState == (if second.catalog.Some? then Some(second.catalog.value.state)
                                     else if first.catalog.Some? then Some(first.catalog.value.state) else None)
            && d.lifespan
               == (if second.catalog.Some? && (second.catalog.value.lifespan != 0
                                               || first.catalog.None? || first.catalog.value.lifespan != 0)
                   then Some(second.catalog.value.lifespan)
                   else if second.catalog.None? && first.catalog.Some? && first.catalog.value.lifespan != 0
                   then Some(first.catalog.value.lifespan) else None)
            && d.audience
               == (if second.catalog.Some?
                      && !(first.catalog.Some?
                           && forall a :: a in first.catalog.value.audience ==> a in second.catalog.value.audience)
                   then Some(second.catalog.value.audience)
                   else if first.catalog.Some? then Some(first.catalog.value.audience) else None)
  {
  }

  /** What a join puts and rechecks carries the client's consumer and the key's material. */
  lemma JoinedMaterial(s: Rows, consumer: TenantId, pem: string, p: PurposeId)
    ensures var e := JoinedEntry(s, consumer, pem, p);
            e.ConsumerEntry? && e.consumer == consumer && e.publicKey == pem
  {
  }

  lemma KeyEntriesShow(s: Rows, client: Client, kid: string, pem: string, pk: TokenKey)
    ensures var put, rechecked := KeyEntries(s, client, kid, pem, PurposeSet(client.purposes)),
                                  RecheckedKeyEntries(s, client, kid, pem, PurposeSet(client.purposes));
            && (pk in put <==> pk in rechecked)
            && (pk in put <==> pk.ClientKidPurpose? && pk.client == client.id && pk.kid == kid
                               && pk.purpose in client.purposes)
            && (pk in rechecked ==>
                  && rechecked[pk].ConsumerEntry? && rechecked[pk].consumer == client.consumer
                  && rechecked[pk].publicKey == pem)
  {
    if pk.ClientKidPurpose? {
      JoinedMaterial(s, client.consumer, pem, pk.purpose);
    }
  }

  lemma PurposeEntriesShow(s: Rows, client: Client, p: PurposeId, pk: TokenKey)
    ensures var put, rechecked := PurposeEntries(s, client, p, Kids(client.keys)),
                                  RecheckedPurposeEntries(s, client, p, Kids(client.keys));
            && (pk in put <==> pk in rechecked)
            && (pk in put <==> pk.ClientKidPurpose? && pk.client == client.id && pk.purpose == p
                               && pk.kid in Kids(client.keys))
            && (pk in rechecked ==>
                  && rechecked[pk].ConsumerEntry? && rechecked[pk].consumer == client.consumer
                  && rechecked[pk].publicKey == LastPem(client.keys, pk.kid))
  {
    if pk.ClientKidPurpose? && pk.kid in Kids(client.keys) {
      JoinedMaterial(s, client.consumer, LastPem(client.keys, pk.kid), p);
    }
  }

  /** The plan of a client message: the row first, and then entries alone. */
  lemma RunOfPlan(s: Store, p: Plan, rows: Rows)
    requires OnRows(s.rows, p.first) == rows && !p.first.PutTokens? && !p.first.DropTokens? && !p.first.PatchTokens?
    requires forall f :: f in {p.second, p.third, p.fourth} ==> f.PutTokens? || f.DropTokens? || f.Nothing?
    ensures Run(s, p) == Store(rows, OnTokens(OnTokens(OnTokens(s.tokens, p.second), p.third), p.fourth))
  {
    assert p.second in {p.second, p.third, p.fourth} && p.third in {p.second, p.third, p.fourth}
           && p.fourth in {p.second, p.third, p.fourth};
  }

  /** A consumer client's key gets an entry for each of the client's purposes, with its own material. */
  lemma ConsumerKeyAdded(s: Store, m: ClientMessage, i: nat, pk: TokenKey)
    requires m.kind.ClientKeyAdded? && FirstOfKid(m.client.keys, m.kind.kid, i) && m.client.keys[i].encodedPem != ""
    requires m.client.kind == ConsumerClient && !OutdatedClient(s, m)
    ensures var s1 := Handle(s, OnClient(m));
            && s1.rows == RowsWithClient(s.rows, m)
            && if pk.ClientKidPurpose? && pk.client == m.client.id && pk.kid == m.kind.kid
                  && pk.purpose in m.client.purposes
               then
                 && pk in s1.tokens && s1.tokens[pk].ConsumerEntry? && s1.tokens[pk].consumer == m.client.consumer
                 && s1.tokens[pk].publicKey == m.client.keys[i].encodedPem
               else Lookup(s1.tokens, pk) == Lookup(s.tokens, pk)
  {
    FirstPemIsFirst(m.client.keys, m.kind.kid, i);
    var pem := m.client.keys[i].encodedPem;
    KeyEntriesShow(s.rows, m.client, m.kind.kid, pem, pk);
    RunOfPlan(s, AuthorizationWriter.PlanOf(s.rows, m).value, RowsWithClient(s.rows, m));
  }

  /** An API client's key gets one entry, with its material. */
  lemma ApiKeyAdded(s: Store, m: ClientMessage, i: nat)
    requires m.kind.ClientKeyAdded? && FirstOfKid(m.client.keys, m.kind.kid, i) && m.client.keys[i].encodedPem != ""
    requires m.client.kind == ApiClient && !OutdatedClient(s, m)
    ensures var s1, pk := Handle(s, OnClient(m)), ClientKid(m.client.id, m.kind.kid);
            && s1.rows == RowsWithClient(s.rows, m)
            && s1.tokens == s.tokens[pk := ApiEntry(m.client.consumer, m.client.keys[i].encodedPem)]
  {
    FirstPemIsFirst(m.client.keys, m.kind.kid, i);
    var pk := ClientKid(m.client.id, m.kind.kid);
    var e := ApiEntry(m.client.consumer, m.client.keys[i].encodedPem);
    assert s.tokens + map[pk := e] == s.tokens[pk := e];
  }

  /** A deleted key loses its entries: one for each purpose, or the one of a client without purposes. */
  lemma KeyEntriesRemoved(s: Store, m: ClientMessage, pk: TokenKey)
    requires m.kind.ClientKeyDeleted? && !OutdatedClient(s, m)
    ensures var s1 := Handle(s, OnClient(m));
            && s1.rows == RowsWithClient(s.rows, m)
            && Lookup(s1.tokens, pk)
               == if pk.client == m.client.id && pk.kid == m.kind.kid
                     && (if pk.ClientKidPurpose? then pk.purpose in m.client.purposes else m.client.purposes == [])
                  then None else Lookup(s.tokens, pk)
  {
  }

  /** An added purpose gives every key of the client an entry with its material, and takes its partial one. */
  lemma PurposeEntriesAdded(s: Store, m: ClientMessage, pk: TokenKey)
    requires m.kind.ClientPurposeAdded? && !OutdatedClient(s, m)
    ensures var s1 := Handle(s, OnClient(m));
            var own := pk.client == m.client.id && exists k :: k in m.client.keys && k.kid == pk.kid;
            && s1.rows == RowsWithClient(s.rows, m)
            && if own && pk.ClientKid? then pk !in s1.tokens
               else if own && pk.purpose == m.kind.purpose then
                 && pk in s1.tokens && s1.tokens[pk].ConsumerEntry? && s1.tokens[pk].consumer == m.client.consumer
                 && forall i: nat :: LastOfKid(m.client.keys, pk.kid, i) ==>
                      s1.tokens[pk].publicKey == m.client.keys[i].encodedPem
               else Lookup(s1.tokens, pk) == Lookup(s.tokens, pk)
  {
    PurposeEntriesShow(s.rows, m.client, m.kind.purpose, pk);
    RunOfPlan(s, AuthorizationWriter.PlanOf(s.rows, m).value, RowsWithClient(s.rows, m));
    forall i: nat | LastOfKid(m.client.keys, pk.kid, i)
      ensures (exists k :: k in m.client.keys && k.kid == pk.kid)
              && LastPem(m.client.keys, pk.kid) == m.client.keys[i].encodedPem
    {
      LastPemIsLast(m.client.keys, pk.kid, i);
    }
    assert pk.kid in Kids(m.client.keys) <==> exists k :: k in m.client.keys && k.kid == pk.kid;
  }

  lemma PurposeEntriesRemoved(s: Store, m: ClientMessage, pk: TokenKey)
    requires m.kind.ClientPurposeRemoved? && m.client.id in s.rows.clients && !OutdatedClient(s, m)
    ensures var s1 := Handle(s, OnClient(m));
            && s1.rows == s.rows.(clients := s.rows.clients[m.client.id :=
                 s.rows.clients[m.client.id].(purposes := [], version := m.version)])
            && Lookup(s1.tokens, pk)
               == if pk.ClientKidPurpose? && pk.client == m.client.id && pk.purpose == m.kind.purpose
                     && exists k :: k in m.client.keys && k.kid == pk.kid
                  then None else Lookup(s.tokens, pk)
  {
    assert pk.kid in Kids(m.client.keys) <==> exists k :: k in m.client.keys && k.kid == pk.kid;
  }

  lemma ClientDeletedWhole(s: Store, m: ClientMessage, pk: TokenKey)
    requires m.kind.ClientDeleted?
    ensures var s1 := Handle(s, OnClient(m));
            && s1.rows == s.rows.(clients := s.rows.clients - {m.client.id})
            && Lookup(s1.tokens, pk)
               == if pk.client == m.client.id && (exists k :: k in m.client.keys && k.kid == pk.kid)
                     && (if pk.ClientKidPurpose? then pk.purpose in m.client.purposes else m.client.purposes == [])
                  then None else Lookup(s.tokens, pk)
  {
    assert pk.kid in Kids(m.client.keys) <==> exists k :: k in m.client.keys && k.kid == pk.kid;
  }
}
