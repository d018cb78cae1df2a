/** authorization-platformstate-writer, V1 messages, one method per DynamoDB call.  The process may die
    before any write: every attempt has a budget of writes, and an attempt that runs out of it stops
    where it is.  The rows that entries are joined with stay as they are meanwhile. */
module ClientTables {
  import opened Wrappers
  import opened Domain
  import opened Tables
  import opened AuthorizationWriter
  import opened ClientShape

  function Ahead(rank: TokenKey -> int, cursor: Option<int>, t: Tokens): set<TokenKey> {
    set pk | pk in t && (cursor.None? || rank(pk) > cursor.value)
  }

  function Matching(keys: set<TokenKey>, selects: TokenKey -> bool): set<TokenKey> {
    set pk | pk in keys && selects(pk)
  }

  /** The tables agree on the entries of other clients. */
  ghost predicate SameElsewhere(t: Tokens, t1: Tokens, c: ClientId) {
    && (forall pk: TokenKey :: pk.client != c ==> (pk in t <==> pk in t1))
    && (forall pk :: pk in t && pk in t1 && pk.client != c ==> t[pk] == t1[pk])
  }

  function Deduplicated(ps: seq<PurposeId>): (r: seq<PurposeId>)
    ensures PurposeSet(r) == PurposeSet(ps) && |r| == |PurposeSet(ps)|
  {
    if ps == [] then []
    else
      var before, p := Deduplicated(ps[..|ps| - 1]), ps[|ps| - 1];
      assert PurposeSet(ps) == PurposeSet(ps[..|ps| - 1]) + {p} by {
        assert forall x :: x in ps <==> x in ps[..|ps| - 1] || x == p;
      }
      if p in before then
        assert PurposeSet(ps) == PurposeSet(before);
        before
      else
        assert p !in PurposeSet(before);
        assert PurposeSet(before + [p]) == PurposeSet(before) + {p};
        before + [p]
  }

  function Without(ps: seq<PurposeId>, p: PurposeId): (r: seq<PurposeId>)
    ensures PurposeSet(r) == PurposeSet(ps) - {p}
  {
    if ps == [] then []
    else
      var before, x := Without(ps[..|ps| - 1], p), ps[|ps| - 1];
      assert PurposeSet(ps) == PurposeSet(ps[..|ps| - 1]) + {x} by {
        assert forall y :: y in ps <==> y in ps[..|ps| - 1] || y == x;
      }
      if x == p then before
      else
        assert PurposeSet(before + [x]) == PurposeSet(before) + {x};
        before + [x]
  }

  /* ---- what one write does to a client that is between two states ---- */

  lemma RowWriteKeepsBetween(row: Option<ClientRow>, row1: Option<ClientRow>, t: Tokens, c: ClientId, a: Account,
                             m: ClientMessageV1)
    requires Between(row, t, c, a, m) && RowShows(row1, Next(Some(a), m))
    ensures Between(row1, t, c, a, m)
  {
  }

  /** The entries are ones that the new state has. */
  predicate Belong(entries: Tokens, c: ClientId, b: Option<Account>) {
    forall pk :: pk in entries ==>
        pk in Expected(c, b) && EntryShows(entries[pk], b.value.consumer, b.value.keys[pk.kid])
  }

  lemma PutsKeepBetween(row: Option<ClientRow>, t: Tokens, c: ClientId, a: Account, m: ClientMessageV1, entries: Tokens)
    requires Between(row, t, c, a, m) && Belong(entries, c, Next(Some(a), m))
    ensures Between(row, t + entries, c, a, m) && SameElsewhere(t, t + entries, c)
  {
  }

  predicate Superfluous(keys: set<TokenKey>, c: ClientId, b: Option<Account>) {
    forall pk :: pk in keys ==> pk.client == c && pk !in Expected(c, b)
  }

  /** Entries that the new state does not have may go; where purposes come or go altogether, each of
      them only after the new entry of its key is in place. */
  lemma SwapKeepsBetween(row: Option<ClientRow>, t: Tokens, c: ClientId, a: Account, m: ClientMessageV1, put: Tokens,
                         drop: set<TokenKey>)
    requires Between(row, t, c, a, m) && Belong(put, c, Next(Some(a), m)) && Superfluous(drop, c, Next(Some(a), m))
    requires m.event.PurposeAdded? || m.event.PurposeRemoved? ==>
               (a.purposes != {} && Next(Some(a), m).value.purposes != {})
               || forall pk :: pk in drop ==> Replacement(c, Next(Some(a), m).value, pk.kid, m.event.purpose) in put
    ensures Between(row, t + put - drop, c, a, m) && SameElsewhere(t, t + put - drop, c)
  {
  }

  function Replacement(c: ClientId, b: Account, kid: string, p: PurposeId): TokenKey {
    if b.purposes == {} then ClientKid(c, kid) else ClientKidPurpose(c, kid, p)
  }

  /** A message that changes nothing leaves nothing between. */
  lemma BetweenSame(row: Option<ClientRow>, t: Tokens, c: ClientId, a: Account, m: ClientMessageV1)
    requires Between(row, t, c, a, m) && Next(Some(a), m) == Some(a)
    ensures Represents(row, t, c, Some(a))
  {
  }

  /** The new state is reached once its row and all its entries are in place and nothing else is left. */
  lemma Completed(row: Option<ClientRow>, t: Tokens, c: ClientId, a: Account, m: ClientMessageV1)
    requires Between(row, t, c, a, m) && RowShows(row, Next(Some(a), m))
    requires forall pk :: pk in t && pk.client == c ==> pk in Expected(c, Next(Some(a), m))
    requires forall pk :: pk in Expected(c, Next(Some(a), m)) ==> pk in t
    requires forall pk :: pk in Expected(c, Next(Some(a), m)) ==>
               (pk.kid in a.keys && a.keys[pk.kid] == Next(Some(a), m).value.keys[pk.kid])
               || EntryShows(t[pk], Next(Some(a), m).value.consumer, Next(Some(a), m).value.keys[pk.kid])
    requires m.event.ClientAdded? ==> a.consumer == m.event.consumer
    ensures Represents(row, t, c, Next(Some(a), m))
  {
  }

  function Tabulated(keys: set<TokenKey>, f: TokenKey -> TokenEntry): Tokens {
    map pk | pk in keys :: f(pk)
  }

  /** What is put under a key. */
  function Maker(s: Rows, consumer: TenantId, pem: string): TokenKey -> TokenEntry {
    (pk: TokenKey) =>
      if pk.ClientKidPurpose? then Stored(NewEntry(consumer, pem, Retrieve(s, pk.purpose)))
        else PartialEntry(consumer, pem)
  }

  lemma MakerShows(s: Rows, consumer: TenantId, pem: string, pk: TokenKey)
    ensures EntryShows(Maker(s, consumer, pem)(pk), consumer, pem)
  {
  }

  function KeyTokens(c: ClientId, kid: string, ps: seq<PurposeId>, f: TokenKey -> TokenEntry): Tokens {
    Tabulated(CompleteKeys(c, {kid}, PurposeSet(ps)), f)
  }

  lemma KeyTokensStep(before: Tokens, c: ClientId, kid: string, ps: seq<PurposeId>, i: nat, f: TokenKey -> TokenEntry)
    requires i < |ps|
    ensures var pk := ClientKidPurpose(c, kid, ps[i]);
            (before + KeyTokens(c, kid, ps[..i], f))[pk := f(pk)] == before + KeyTokens(c, kid, ps[..i + 1], f)
  {
    var pk := ClientKidPurpose(c, kid, ps[i]);
    assert forall p :: p in ps[..i + 1] <==> p in ps[..i] || p == ps[i];
    assert KeyTokens(c, kid, ps[..i + 1], f) == KeyTokens(c, kid, ps[..i], f)[pk := f(pk)];
  }

  /** Entries that were only brought up to date. */
  predicate Amended(t: Tokens, t1: Tokens, c: ClientId, b: Option<Account>) {
    && t1.Keys == t.Keys
    && forall pk :: pk in t1 ==>
         t1[pk] == t[pk] || (pk in Expected(c, b) && EntryShows(t1[pk], b.value.consumer, b.value.keys[pk.kid]))
  }

  lemma AmendmentKeepsBetween(row: Option<ClientRow>, t: Tokens, t1: Tokens, c: ClientId, a: Account,
                              m: ClientMessageV1)
    requires Between(row, t, c, a, m) && Amended(t, t1, c, Next(Some(a), m))
    ensures Between(row, t1, c, a, m) && SameElsewhere(t, t1, c)
  {
  }

  lemma AmendmentRepresents(row: Option<ClientRow>, t: Tokens, t1: Tokens, c: ClientId, b: Option<Account>)
    requires Represents(row, t, c, b) && Amended(t, t1, c, b)
    ensures Represents(row, t1, c, b)
  {
  }

  lemma AmendableEntries(row: Option<ClientRow>, t: Tokens, c: ClientId, b: Option<Account>, keys: set<TokenKey>)
    requires Represents(row, t, c, b) && forall pk :: pk in keys ==> pk in t && pk.client == c
    ensures forall pk :: pk in keys ==> t[pk].ConsumerEntry?
    ensures forall pk :: pk in keys ==>
              pk in Expected(c, b) && t[pk].consumer == b.value.consumer && t[pk].publicKey == b.value.keys[pk.kid]
  {
  }

  /** What any number of attempts may have left, of a client that may not exist. */
  predicate Attempted(row: Option<ClientRow>, t: Tokens, c: ClientId, a: Option<Account>, m: ClientMessageV1) {
    if a.None? then Represents(row, t, c, None) || Represents(row, t, c, Next(None, m))
    else Between(row, t, c, a.value, m)
  }

  lemma RepresentsIsBetween(row: Option<ClientRow>, t: Tokens, c: ClientId, a: Option<Account>, m: ClientMessageV1)
    requires Represents(row, t, c, a)
    ensures Attempted(row, t, c, a, m)
  {
  }

  /* ---- KeysAdded ---- */

  lemma KeyTokensBelong(s: Rows, c: ClientId, consumer: TenantId, kid: string, pem: string, ps: seq<PurposeId>,
                        b: Account)
    requires b.consumer == consumer && kid in b.keys && b.keys[kid] == pem && PurposeSet(ps) <= b.purposes
    ensures Belong(KeyTokens(c, kid, ps, Maker(s, consumer, pem)), c, Some(b))
  {
    forall pk | pk in KeyTokens(c, kid, ps, Maker(s, consumer, pem))
      ensures pk in Expected(c, Some(b))
              && EntryShows(KeyTokens(c, kid, ps, Maker(s, consumer, pem))[pk], consumer, b.keys[pk.kid])
    {
      MakerShows(s, consumer, pem, pk);
    }
  }

  /** All entries of the key are in place. */
  lemma KeyComplete(row: ClientRow, t: Tokens, c: ClientId, a: Account, m: ClientMessageV1, put: Tokens)
    requires m.event.KeysAdded? && a.version <= m.version && Between(Some(row), t, c, a, m)
             && RowShows(Some(row), Next(Some(a), m))
    requires Belong(put, c, Next(Some(a), m))
    requires forall pk :: pk in Expected(c, Next(Some(a), m)) && pk.kid == m.event.kid ==> pk in put
    ensures Represents(Some(row), t + put, c, Next(Some(a), m))
  {
    PutsKeepBetween(Some(row), t, c, a, m, put);
    Completed(Some(row), t + put, c, a, m);
  }

  /* ---- ClientPurposeAdded ---- */

  /** What is put for the first `i` entries of the scan, and which of those are partial. */
  function PurposeKeys(c: ClientId, entries: seq<TokenKey>, p: PurposeId, i: nat): set<TokenKey>
    requires i <= |entries|
  {
    set k | 0 <= k < i :: ClientKidPurpose(c, entries[k].kid, p)
  }

  function PartialAmong(entries: seq<TokenKey>, i: nat): set<TokenKey>
    requires i <= |entries|
  {
    set k | 0 <= k < i && entries[k].ClientKid? :: entries[k]
  }

  /** What is put for the keys of a client, each with the material of its own key. */
  function MakerOf(s: Rows, consumer: TenantId, keys: map<string, string>): TokenKey -> TokenEntry {
    (pk: TokenKey) => Maker(s, consumer, if pk.kid in keys then keys[pk.kid] else "")(pk)
  }

  lemma TabulatedStep(before: Tokens, put: set<TokenKey>, drop: set<TokenKey>, f: TokenKey -> TokenEntry, pk: TokenKey)
    requires pk !in drop
    ensures (before + Tabulated(put, f) - drop)[pk := f(pk)] == before + Tabulated(put + {pk}, f) - drop
  {
    assert Tabulated(put + {pk}, f) == Tabulated(put, f)[pk := f(pk)];
  }

  lemma PurposeKeysStep(c: ClientId, entries: seq<TokenKey>, p: PurposeId, i: nat)
    requires i < |entries|
    ensures PurposeKeys(c, entries, p, i + 1)
            == PurposeKeys(c, entries, p, i) + {ClientKidPurpose(c, entries[i].kid, p)}
    ensures PartialAmong(entries, i + 1)
            == PartialAmong(entries, i) + (if entries[i].ClientKid? then {entries[i]} else {})
  {
  }

  /** The scan returned the client's entries, with the client's own material. */
  ghost predicate Scanned(t: Tokens, entries: seq<TokenKey>, c: ClientId, a: Account) {
    && (forall pk :: pk in entries <==> pk in t && pk.client == c)
    && (forall pk :: pk in entries ==> pk.kid in a.keys && EntryShows(t[pk], a.consumer, a.keys[pk.kid]))
  }

  lemma PurposeKeysBelong(s: Rows, t: Tokens, c: ClientId, a: Account, b: Account, entries: seq<TokenKey>, p: PurposeId,
                          i: nat)
    requires i <= |entries| && Scanned(t, entries, c, a) && b.keys == a.keys && b.consumer == a.consumer
             && p in b.purposes
    ensures Belong(Tabulated(PurposeKeys(c, entries, p, i), MakerOf(s, a.consumer, a.keys)), c, Some(b))
  {
    forall pk | pk in PurposeKeys(c, entries, p, i)
      ensures pk in Expected(c, Some(b)) && EntryShows(MakerOf(s, a.consumer, a.keys)(pk), b.consumer, b.keys[pk.kid])
    {
      var k :| 0 <= k < i && pk == ClientKidPurpose(c, entries[k].kid, p);
      assert entries[k] in entries;
      MakerShows(s, a.consumer, a.keys[pk.kid], pk);
    }
  }

  /** The tables after the first `i` entries of the scan, the first `j` partial ones being gone. */
  function AddedSoFar(t: Tokens, c: ClientId, entries: seq<TokenKey>, p: PurposeId, f: TokenKey -> TokenEntry, i: nat,
                      dropping: bool, j: nat): Tokens
    requires i <= |entries| && j <= |entries|
  {
    t + Tabulated(PurposeKeys(c, entries, p, i), f) - (if dropping then PartialAmong(entries, j) else {})
  }

  /** What is built in memory for an entry of the scan. */
  function BuiltFor(s: Rows, t: Tokens, entry: TokenKey, p: PurposeId): TokenEntry
    requires entry in t
  {
    NewEntry(t[entry].consumer, t[entry].publicKey, Retrieve(s, p))
  }

  predicate Makes(f: TokenKey -> TokenEntry, s: Rows, t: Tokens, c: ClientId, entries: seq<TokenKey>, p: PurposeId) {
    forall k :: 0 <= k < |entries| ==>
      entries[k] in t && f(ClientKidPurpose(c, entries[k].kid, p)) == Stored(BuiltFor(s, t, entries[k], p))
  }

  /** Complete entries of the client. */
  predicate Adds(added: Tokens, c: ClientId) {
    forall pk :: pk in added ==> pk.ClientKidPurpose? && pk.client == c && added[pk].ConsumerEntry?
  }

  lemma EntryMakes(s: Rows, t: Tokens, c: ClientId, a: Account, entry: TokenKey, p: PurposeId)
    requires entry in t && entry.kid in a.keys && EntryShows(t[entry], a.consumer, a.keys[entry.kid])
    ensures MakerOf(s, a.consumer, a.keys)(ClientKidPurpose(c, entry.kid, p)) == Stored(BuiltFor(s, t, entry, p))
  {
    var pk := ClientKidPurpose(c, entry.kid, p);
    assert MakerOf(s, a.consumer, a.keys)(pk) == Maker(s, a.consumer, a.keys[entry.kid])(pk);
    assert Maker(s, a.consumer, a.keys[entry.kid])(pk)
           == Stored(NewEntry(a.consumer, a.keys[entry.kid], Retrieve(s, p)));
  }

  lemma ScannedMakes(s: Rows, t: Tokens, c: ClientId, a: Account, entries: seq<TokenKey>, p: PurposeId)
    requires Scanned(t, entries, c, a)
    ensures Makes(MakerOf(s, a.consumer, a.keys), s, t, c, entries, p)
  {
    forall k | 0 <= k < |entries|
      ensures entries[k] in t
              && MakerOf(s, a.consumer, a.keys)(ClientKidPurpose(c, entries[k].kid, p))
                   == Stored(BuiltFor(s, t, entries[k], p))
    {
      assert entries[k] in entries;
      EntryMakes(s, t, c, a, entries[k], p);
    }
  }

  lemma AddedNothing(t: Tokens, c: ClientId, entries: seq<TokenKey>, p: PurposeId, f: TokenKey -> TokenEntry,
                     dropping: bool)
    ensures AddedSoFar(t, c, entries, p, f, 0, dropping, 0) == t
  {
    assert PurposeKeys(c, entries, p, 0) == {} && PartialAmong(entries, 0) == {};
  }

  lemma AddedPut(t: Tokens, c: ClientId, entries: seq<TokenKey>, p: PurposeId, f: TokenKey -> TokenEntry, i: nat,
                 dropping: bool, j: nat)
    requires i < |entries| && j <= |entries|
    ensures var pk := ClientKidPurpose(c, entries[i].kid, p);
            AddedSoFar(t, c, entries, p, f, i, dropping, j)[pk := f(pk)]
              == AddedSoFar(t, c, entries, p, f, i + 1, dropping, j)
  {
    PurposeKeysStep(c, entries, p, i);
    TabulatedStep(t, PurposeKeys(c, entries, p, i), if dropping then PartialAmong(entries, j) else {}, f,
                  ClientKidPurpose(c, entries[i].kid, p));
  }

  lemma AddedDrop(t: Tokens, c: ClientId, entries: seq<TokenKey>, p: PurposeId, f: TokenKey -> TokenEntry, i: nat,
                  j: nat)
    requires i <= |entries| && j < |entries|
    ensures AddedSoFar(t, c, entries, p, f, i, true, j + 1)
            == var before := AddedSoFar(t, c, entries, p, f, i, true, j);
               if entries[j].ClientKid? then before - {entries[j]} else before
  {
    PurposeKeysStep(c, entries, p, j);
    var put := t + Tabulated(PurposeKeys(c, entries, p, i), f);
    assert put - (PartialAmong(entries, j) + {entries[j]}) == put - PartialAmong(entries, j) - {entries[j]};
  }

  function KidsAmong(entries: seq<TokenKey>, i: nat): set<string>
    requires i <= |entries|
  {
    set k | 0 <= k < i :: entries[k].kid
  }

  lemma KidsAmongStep(entries: seq<TokenKey>, i: nat)
    requires i < |entries|
    ensures KidsAmong(entries, i + 1) == KidsAmong(entries, i) + {entries[i].kid}
  {
  }

  lemma AddedAgain(t: Tokens, c: ClientId, entries: seq<TokenKey>, p: PurposeId, f: TokenKey -> TokenEntry, i: nat)
    requires i < |entries| && entries[i].kid in KidsAmong(entries, i)
    ensures AddedSoFar(t, c, entries, p, f, i + 1, false, 0) == AddedSoFar(t, c, entries, p, f, i, false, 0)
  {
    PurposeKeysStep(c, entries, p, i);
    var k :| 0 <= k < i && entries[k].kid == entries[i].kid;
    assert ClientKidPurpose(c, entries[k].kid, p) in PurposeKeys(c, entries, p, i);
    assert PurposeKeys(c, entries, p, i + 1) == PurposeKeys(c, entries, p, i);
  }

  /** The tables as the loop over the scan leaves them, the first purpose being added... */
  function Swapped(t: Tokens, c: ClientId, entries: seq<TokenKey>, p: PurposeId, f: TokenKey -> TokenEntry,
                   i: nat): Tokens
    requires i <= |entries|
  {
    if i == 0 then t
    else
      var entry, pk := entries[i - 1], ClientKidPurpose(c, entries[i - 1].kid, p);
      var put := Swapped(t, c, entries, p, f, i - 1)[pk := f(pk)];
      if entry.ClientKid? then put - {entry} else put
  }

  /** ... and a further one. */
  function Extended(t: Tokens, c: ClientId, entries: seq<TokenKey>, p: PurposeId, f: TokenKey -> TokenEntry,
                    i: nat): Tokens
    requires i <= |entries|
  {
    if i == 0 then t
    else
      var pk, before := ClientKidPurpose(c, entries[i - 1].kid, p), Extended(t, c, entries, p, f, i - 1);
      if entries[i - 1].kid in KidsAmong(entries, i - 1) then before else before[pk := f(pk)]
  }

  lemma SwapStep(before: Tokens, t: Tokens, c: ClientId, entries: seq<TokenKey>, p: PurposeId,
                 f: TokenKey -> TokenEntry, i: nat)
    requires i < |entries| && before == AddedSoFar(t, c, entries, p, f, i, true, i)
    ensures var put := before[ClientKidPurpose(c, entries[i].kid, p) := f(ClientKidPurpose(c, entries[i].kid, p))];
            (if entries[i].ClientKid? then put - {entries[i]} else put)
              == AddedSoFar(t, c, entries, p, f, i + 1, true, i + 1)
  {
    AddedPut(t, c, entries, p, f, i, true, i);
    AddedDrop(t, c, entries, p, f, i + 1, i);
  }

  lemma {:induction false} SwappedIsAdded(t: Tokens, c: ClientId, entries: seq<TokenKey>, p: PurposeId,
                                          f: TokenKey -> TokenEntry, i: nat)
    requires i <= |entries|
    ensures Swapped(t, c, entries, p, f, i) == AddedSoFar(t, c, entries, p, f, i, true, i)
  {
    if i == 0 {
      AddedNothing(t, c, entries, p, f, true);
    } else {
      SwappedIsAdded(t, c, entries, p, f, i - 1);
      SwapStep(Swapped(t, c, entries, p, f, i - 1), t, c, entries, p, f, i - 1);
    }
  }

  lemma ExtendStep(before: Tokens, t: Tokens, c: ClientId, entries: seq<TokenKey>, p: PurposeId,
                   f: TokenKey -> TokenEntry, i: nat)
    requires i < |entries| && before == AddedSoFar(t, c, entries, p, f, i, false, 0)
    ensures var pk := ClientKidPurpose(c, entries[i].kid, p);
            (if entries[i].kid in KidsAmong(entries, i) then before else before[pk := f(pk)])
              == AddedSoFar(t, c, entries, p, f, i + 1, false, 0)
  {
    if entries[i].kid in KidsAmong(entries, i) {
      AddedAgain(t, c, entries, p, f, i);
    } else {
      AddedPut(t, c, entries, p, f, i, false, 0);
    }
  }

  lemma ExtendedNext(t: Tokens, c: ClientId, entries: seq<TokenKey>, p: PurposeId, f: TokenKey -> TokenEntry, i: nat)
    requires i < |entries|
    ensures var pk, before := ClientKidPurpose(c, entries[i].kid, p), Extended(t, c, entries, p, f, i);
            Extended(t, c, entries, p, f, i + 1)
            == if entries[i].kid in KidsAmong(entries, i) then before else before[pk := f(pk)]
  {
  }

  lemma ExtendedStays(t: Tokens, c: ClientId, entries: seq<TokenKey>, p: PurposeId, f: TokenKey -> TokenEntry, i: nat)
    requires i < |entries| && Extended(t, c, entries, p, f, i) == AddedSoFar(t, c, entries, p, f, i, false, 0)
    ensures Extended(t, c, entries, p, f, i + 1) == AddedSoFar(t, c, entries, p, f, i + 1, false, 0)
  {
    ExtendStep(Extended(t, c, entries, p, f, i), t, c, entries, p, f, i);
    ExtendedNext(t, c, entries, p, f, i);
  }

  lemma {:induction false} ExtendedIsAdded(t: Tokens, c: ClientId, entries: seq<TokenKey>, p: PurposeId,
                                           f: TokenKey -> TokenEntry, i: nat)
    requires i <= |entries|
    ensures Extended(t, c, entries, p, f, i) == AddedSoFar(t, c, entries, p, f, i, false, 0)
  {
    if i == 0 {
      AddedNothing(t, c, entries, p, f, false);
    } else {
      ExtendedIsAdded(t, c, entries, p, f, i - 1);
      ExtendedStays(t, c, entries, p, f, i - 1);
    }
  }

  /** An attempt at adding a purpose, wherever it stops. */
  lemma AddingKeepsBetween(row: Option<ClientRow>, s: Rows, t: Tokens, c: ClientId, a: Account, m: ClientMessageV1,
                           entries: seq<TokenKey>,
                           i: nat, dropping: bool, j: nat)
    requires m.event.PurposeAdded? && a.version <= m.version && Between(row, t, c, a, m) && Scanned(t, entries, c, a)
    requires j <= i <= |entries| && (dropping ==> a.purposes <= {m.event.purpose})
    ensures var t1 := AddedSoFar(t, c, entries, m.event.purpose, MakerOf(s, a.consumer, a.keys), i, dropping, j);
            Between(row, t1, c, a, m) && SameElsewhere(t, t1, c)
  {
    var b, p := Next(Some(a), m).value, m.event.purpose;
    PurposeKeysBelong(s, t, c, a, b, entries, p, i);
    var put := Tabulated(PurposeKeys(c, entries, p, i), MakerOf(s, a.consumer, a.keys));
    var drop := if dropping then PartialAmong(entries, j) else {};
    forall pk | pk in drop
      ensures pk.client == c && pk !in Expected(c, Some(b)) && Replacement(c, b, pk.kid, p) in put
    {
      var k :| 0 <= k < j && entries[k] == pk;
      assert pk in entries;
      assert ClientKidPurpose(c, entries[k].kid, p) in PurposeKeys(c, entries, p, i);
    }
    SwapKeepsBetween(row, t, c, a, m, put, drop);
  }

  /** Each key of the client has an entry in the scan. */
  lemma EveryKeyScanned(row: Option<ClientRow>, t: Tokens, c: ClientId, a: Account, m: ClientMessageV1,
                        entries: seq<TokenKey>, kid: string)
    requires m.event.PurposeAdded? && a.version <= m.version && Between(row, t, c, a, m) && Scanned(t, entries, c, a)
             && kid in a.keys
    ensures exists k :: 0 <= k < |entries| && entries[k].kid == kid
  {
    if a.purposes == {} {
      assert KeyHeld(t, c, kid, m.event.purpose);
      assert ClientKid(c, kid) in entries || ClientKidPurpose(c, kid, m.event.purpose) in entries;
    } else {
      var q :| q in a.purposes;
      assert ClientKidPurpose(c, kid, q) in Expected(c, Some(a));
      assert ClientKidPurpose(c, kid, q) in entries;
    }
  }

  lemma NewEntryPut(row: Option<ClientRow>, t: Tokens, c: ClientId, a: Account, m: ClientMessageV1,
                    entries: seq<TokenKey>, f: TokenKey -> TokenEntry, dropping: bool, pk: TokenKey)
    requires m.event.PurposeAdded? && a.version <= m.version && Between(row, t, c, a, m) && Scanned(t, entries, c, a)
    requires pk in Expected(c, Next(Some(a), m)) && pk.ClientKidPurpose?
    ensures pk in AddedSoFar(t, c, entries, m.event.purpose, f, |entries|, dropping, |entries|)
  {
    if pk.purpose == m.event.purpose {
      EveryKeyScanned(row, t, c, a, m, entries, pk.kid);
      var k :| 0 <= k < |entries| && entries[k].kid == pk.kid;
      assert pk in PurposeKeys(c, entries, m.event.purpose, |entries|);
    } else {
      assert pk in Expected(c, Some(a));
    }
  }

  lemma NoPartialLeft(t: Tokens, c: ClientId, a: Account, entries: seq<TokenKey>, p: PurposeId,
                      f: TokenKey -> TokenEntry, pk: TokenKey)
    requires Scanned(t, entries, c, a) && pk.client == c
    ensures pk.ClientKid? ==> pk !in AddedSoFar(t, c, entries, p, f, |entries|, true, |entries|)
  {
    if pk.ClientKid? && pk in t {
      assert pk in entries;
      assert pk in PartialAmong(entries, |entries|);
    }
  }

  lemma StaysWithPurpose(pk: TokenKey, e: TokenEntry, c: ClientId, a: Account, b: Account, p: PurposeId)
    requires Transitional(pk, e, c, a, Some(b)) && b.keys == a.keys && b.purposes == a.purposes + {p}
    requires pk.ClientKidPurpose? || a.purposes != {}
    ensures pk in Expected(c, Some(b))
  {
  }

  lemma NoOtherKeys(t: Tokens, t1: Tokens, c: ClientId, a: Account, m: ClientMessageV1, entries: seq<TokenKey>,
                    f: TokenKey -> TokenEntry, dropping: bool, pk: TokenKey)
    requires m.event.PurposeAdded? && a.version <= m.version && Scanned(t, entries, c, a)
    requires t1 == AddedSoFar(t, c, entries, m.event.purpose, f, |entries|, dropping, |entries|)
    requires dropping <==> a.purposes <= {m.event.purpose}
    requires pk in t1 && pk.client == c && Transitional(pk, t1[pk], c, a, Next(Some(a), m))
    ensures pk in Expected(c, Next(Some(a), m))
  {
    var p := m.event.purpose;
    if a.purposes == {} {
      NoPartialLeft(t, c, a, entries, p, f, pk);
    }
    StaysWithPurpose(pk, t1[pk], c, a, Next(Some(a), m).value, p);
  }

  lemma AddedKeysExact(row: Option<ClientRow>, t: Tokens, t1: Tokens, c: ClientId, a: Account, m: ClientMessageV1,
                       entries: seq<TokenKey>, f: TokenKey -> TokenEntry, dropping: bool)
    requires m.event.PurposeAdded? && a.version <= m.version && Between(row, t, c, a, m) && Between(row, t1, c, a, m)
             && Scanned(t, entries, c, a)
    requires t1 == AddedSoFar(t, c, entries, m.event.purpose, f, |entries|, dropping, |entries|)
    requires dropping <==> a.purposes <= {m.event.purpose}
    ensures forall pk :: pk in Expected(c, Next(Some(a), m)) ==> pk in t1
    ensures forall pk :: pk in t1 && pk.client == c ==> pk in Expected(c, Next(Some(a), m))
  {
    forall pk | pk in Expected(c, Next(Some(a), m)) ensures pk in t1 {
      NewEntryPut(row, t, c, a, m, entries, f, dropping, pk);
    }
    forall pk | pk in t1 && pk.client == c ensures pk in Expected(c, Next(Some(a), m)) {
      NoOtherKeys(t, t1, c, a, m, entries, f, dropping, pk);
    }
  }

  lemma PurposeLeavesKeys(c: ClientId, a: Account, m: ClientMessageV1)
    requires m.event.PurposeAdded? && a.version <= m.version
    ensures Next(Some(a), m).Some? && Next(Some(a), m).value.keys == a.keys
    ensures forall pk :: pk in Expected(c, Next(Some(a), m)) ==> pk.kid in a.keys
  {
  }

  lemma PurposeComplete(row: Option<ClientRow>, s: Rows, t: Tokens, c: ClientId, a: Account, m: ClientMessageV1,
                        entries: seq<TokenKey>, dropping: bool)
    requires m.event.PurposeAdded? && a.version <= m.version && Between(row, t, c, a, m)
             && RowShows(row, Next(Some(a), m))
    requires Scanned(t, entries, c, a) && (dropping <==> a.purposes <= {m.event.purpose})
    ensures Represents(row, AddedSoFar(t, c, entries, m.event.purpose, MakerOf(s, a.consumer, a.keys), |entries|,
                                       dropping, |entries|), c, Next(Some(a), m))
  {
    var p, n, f := m.event.purpose, |entries|, MakerOf(s, a.consumer, a.keys);
    var t1 := AddedSoFar(t, c, entries, p, f, n, dropping, n);
    AddingKeepsBetween(row, s, t, c, a, m, entries, n, dropping, n);
    AddedKeysExact(row, t, t1, c, a, m, entries, f, dropping);
    PurposeLeavesKeys(c, a, m);
    Completed(row, t1, c, a, m);
  }

  lemma ScanShowsClient(row: Option<ClientRow>, t: Tokens, c: ClientId, a: Account, m: ClientMessageV1,
                        entries: seq<TokenKey>)
    requires m.event.PurposeAdded? && a.version <= m.version && Between(row, t, c, a, m)
    requires forall pk :: pk in entries <==> pk in t && pk.client == c
    ensures Scanned(t, entries, c, a)
  {
  }

  lemma OnlyPurposeExactly(ps: seq<PurposeId>, p: PurposeId)
    requires p in ps && |ps| == |PurposeSet(ps)|
    ensures |ps| == 1 <==> PurposeSet(ps) == {p}
  {
    if |ps| == 1 {
      assert ps == [p];
    }
  }

  lemma NoOtherPurpose(purposes: set<PurposeId>, ps: seq<PurposeId>, p: PurposeId)
    requires PurposeSet(ps) == purposes + {p} && |ps| == |PurposeSet(ps)|
    ensures |ps| == 1 <==> purposes <= {p}
  {
    assert p in PurposeSet(ps);
    OnlyPurposeExactly(ps, p);
    if purposes <= {p} {
      assert purposes + {p} == {p};
    } else {
      var q :| q in purposes && q !in {p};
      assert q in PurposeSet(ps) && q !in {p};
    }
  }

  /** The two ways of adding a purpose, wherever they stop. */
  lemma Extending(row: ClientRow, s: Rows, t: Tokens, c: ClientId, a: Account, m: ClientMessageV1,
                  entries: seq<TokenKey>, i: nat)
    requires m.event.PurposeAdded? && a.version <= m.version && |row.purposes| == |PurposeSet(row.purposes)|
    requires Between(Some(row), t, c, a, m) && RowShows(Some(row), Next(Some(a), m)) && Scanned(t, entries, c, a)
    requires |row.purposes| != 1 && i <= |entries|
    ensures var t1 := Extended(t, c, entries, m.event.purpose, MakerOf(s, a.consumer, a.keys), i);
            && Between(Some(row), t1, c, a, m) && SameElsewhere(t, t1, c)
            && (i == |entries| ==> Represents(Some(row), t1, c, Next(Some(a), m)))
  {
    var p, f := m.event.purpose, MakerOf(s, a.consumer, a.keys);
    NoOtherPurpose(a.purposes, row.purposes, p);
    ExtendedIsAdded(t, c, entries, p, f, i);
    AddingKeepsBetween(Some(row), s, t, c, a, m, entries, i, false, 0);
    if i == |entries| {
      PurposeComplete(Some(row), s, t, c, a, m, entries, false);
      assert AddedSoFar(t, c, entries, p, f, i, false, 0) == AddedSoFar(t, c, entries, p, f, i, false, i);
    }
  }

  lemma Swapping(row: ClientRow, s: Rows, t: Tokens, c: ClientId, a: Account, m: ClientMessageV1,
                 entries: seq<TokenKey>, i: nat, half: bool)
    requires m.event.PurposeAdded? && a.version <= m.version && |row.purposes| == |PurposeSet(row.purposes)|
    requires Between(Some(row), t, c, a, m) && RowShows(Some(row), Next(Some(a), m)) && Scanned(t, entries, c, a)
    requires |row.purposes| == 1 && i <= |entries| && (half ==> i < |entries|)
    ensures var p, f := m.event.purpose, MakerOf(s, a.consumer, a.keys);
            var done := Swapped(t, c, entries, p, f, i);
            var t1 := if half then var pk := ClientKidPurpose(c, entries[i].kid, p); done[pk := f(pk)] else done;
            && Between(Some(row), t1, c, a, m) && SameElsewhere(t, t1, c)
            && (i == |entries| ==> Represents(Some(row), t1, c, Next(Some(a), m)))
  {
    var p, f := m.event.purpose, MakerOf(s, a.consumer, a.keys);
    NoOtherPurpose(a.purposes, row.purposes, p);
    SwappedIsAdded(t, c, entries, p, f, i);
    if half {
      AddedPut(t, c, entries, p, f, i, true, i);
    }
    AddingKeepsBetween(Some(row), s, t, c, a, m, entries, if half then i + 1 else i, true, i);
    if i == |entries| {
      PurposeComplete(Some(row), s, t, c, a, m, entries, true);
    }
  }

  /* ---- ClientPurposeRemoved, the last purpose ---- */

  predicate OfPurpose(c: ClientId, p: PurposeId, pk: TokenKey) {
    pk.ClientKidPurpose? && pk.client == c && pk.purpose == p
  }

  function KidsOf(keys: set<TokenKey>): set<string> {
    set pk | pk in keys :: pk.kid
  }

  function PartialMaker(consumer: TenantId, keys: map<string, string>): TokenKey -> TokenEntry {
    (pk: TokenKey) => PartialEntry(consumer, if pk.kid in keys then keys[pk.kid] else "")
  }

  /** The partial entries of the kids in `put` are in place, the complete ones of those in `moved` gone. */
  function ConvertedSoFar(t: Tokens, c: ClientId, p: PurposeId, f: TokenKey -> TokenEntry, put: set<string>,
                          moved: set<string>): Tokens
  {
    t + Tabulated(PartialKeys(c, put), f) - CompleteKeys(c, moved, {p})
  }

  lemma ConvertedPut(t: Tokens, c: ClientId, p: PurposeId, f: TokenKey -> TokenEntry, put: set<string>,
                     moved: set<string>, kid: string)
    ensures ConvertedSoFar(t, c, p, f, put, moved)[ClientKid(c, kid) := f(ClientKid(c, kid))]
            == ConvertedSoFar(t, c, p, f, put + {kid}, moved)
  {
    assert PartialKeys(c, put + {kid}) == PartialKeys(c, put) + {ClientKid(c, kid)};
    TabulatedStep(t, PartialKeys(c, put), CompleteKeys(c, moved, {p}), f, ClientKid(c, kid));
  }

  lemma ConvertedDrop(t: Tokens, c: ClientId, p: PurposeId, f: TokenKey -> TokenEntry, put: set<string>,
                      moved: set<string>, kid: string)
    ensures ConvertedSoFar(t, c, p, f, put, moved) - {ClientKidPurpose(c, kid, p)}
            == ConvertedSoFar(t, c, p, f, put, moved + {kid})
  {
    var t1, pk := t + Tabulated(PartialKeys(c, put), f), ClientKidPurpose(c, kid, p);
    assert CompleteKeys(c, moved + {kid}, {p}) == CompleteKeys(c, moved, {p}) + {pk};
    assert t1 - CompleteKeys(c, moved, {p}) - {pk} == t1 - (CompleteKeys(c, moved, {p}) + {pk});
  }

  lemma PutAndDropTwice(t: Tokens, put1: Tokens, drop1: set<TokenKey>, put2: Tokens, drop2: set<TokenKey>)
    requires put2.Keys !! drop1
    ensures t + put1 - drop1 + put2 - drop2 == t + (put1 + put2) - (drop1 + drop2)
  {
    assert (t + put1 - drop1 + put2 - drop2).Keys == (t + (put1 + put2) - (drop1 + drop2)).Keys;
  }

  /** Two pages one after the other. */
  lemma ConvertedTwice(t: Tokens, c: ClientId, p: PurposeId, f: TokenKey -> TokenEntry, page: set<string>,
                       put: set<string>, moved: set<string>)
    ensures ConvertedSoFar(ConvertedSoFar(t, c, p, f, page, page), c, p, f, put, moved)
            == ConvertedSoFar(t, c, p, f, page + put, page + moved)
  {
    var put1, put2 := Tabulated(PartialKeys(c, page), f), Tabulated(PartialKeys(c, put), f);
    assert put1 + put2 == Tabulated(PartialKeys(c, page + put), f);
    assert CompleteKeys(c, page + moved, {p}) == CompleteKeys(c, page, {p}) + CompleteKeys(c, moved, {p});
    PutAndDropTwice(t, put1, CompleteKeys(c, page, {p}), put2, CompleteKeys(c, moved, {p}));
  }

  lemma ConvertingKeepsBetween(row: Option<ClientRow>, t: Tokens, c: ClientId, a: Account, m: ClientMessageV1,
                               put: set<string>, moved: set<string>)
    requires m.event.PurposeRemoved? && a.version <= m.version && Between(row, t, c, a, m)
             && a.purposes <= {m.event.purpose}
    requires moved <= put <= a.keys.Keys
    ensures var t1 := ConvertedSoFar(t, c, m.event.purpose, PartialMaker(a.consumer, a.keys), put, moved);
            Between(row, t1, c, a, m) && SameElsewhere(t, t1, c)
  {
    var f, b := PartialMaker(a.consumer, a.keys), Next(Some(a), m).value;
    assert b.purposes == {};
    assert Belong(Tabulated(PartialKeys(c, put), f), c, Some(b));
    SwapKeepsBetween(row, t, c, a, m, Tabulated(PartialKeys(c, put), f), CompleteKeys(c, moved, {m.event.purpose}));
  }

  lemma ConversionComplete(row: Option<ClientRow>, t: Tokens, c: ClientId, a: Account, m: ClientMessageV1,
                           all: set<string>)
    requires m.event.PurposeRemoved? && a.version <= m.version && Between(row, t, c, a, m)
             && a.purposes <= {m.event.purpose}
    requires RowShows(row, Next(Some(a), m))
    requires forall kid :: kid in all <==> ClientKidPurpose(c, kid, m.event.purpose) in t
    ensures all <= a.keys.Keys
    ensures Represents(row, ConvertedSoFar(t, c, m.event.purpose, PartialMaker(a.consumer, a.keys), all, all), c,
                       Next(Some(a), m))
  {
    forall kid | kid in all ensures kid in a.keys {
      var pk := ClientKidPurpose(c, kid, m.event.purpose);
      assert Transitional(pk, t[pk], c, a, Next(Some(a), m));
    }
    var t1 := ConvertedSoFar(t, c, m.event.purpose, PartialMaker(a.consumer, a.keys), all, all);
    ConvertingKeepsBetween(row, t, c, a, m, all, all);
    assert Next(Some(a), m).value.purposes == {};
    forall pk | pk in Expected(c, Next(Some(a), m)) ensures pk in t1 {
      assert KeyHeld(t, c, pk.kid, m.event.purpose);
    }
    forall pk | pk in t1 && pk.client == c ensures pk in Expected(c, Next(Some(a), m)) {
      assert Transitional(pk, t1[pk], c, a, Next(Some(a), m));
    }
    Completed(row, t1, c, a, m);
  }

  lemma KidsOfStep(keys: set<TokenKey>, pk: TokenKey)
    ensures KidsOf(keys + {pk}) == KidsOf(keys) + {pk.kid}
  {
  }

  function MatchingAhead(rank: TokenKey -> int, cursor: Option<int>, t: Tokens, c: ClientId,
                         p: PurposeId): set<TokenKey>
  {
    set pk | pk in t && OfPurpose(c, p, pk) && (cursor.None? || rank(pk) > cursor.value)
  }

  /** What a converted page leaves to match ahead of it. */
  lemma MatchingAfterPage(rank: TokenKey -> int, cursor: Option<int>, last: Option<int>, t: Tokens, c: ClientId,
                          p: PurposeId,
                          f: TokenKey -> TokenEntry, page: set<TokenKey>)
    requires last.Some? && (cursor.None? || last.value >= cursor.value)
    requires page == Matching(Ahead(rank, cursor, t) - Ahead(rank, last, t), (pk: TokenKey) => OfPurpose(c, p, pk))
    ensures var t1 := ConvertedSoFar(t, c, p, f, KidsOf(page), KidsOf(page));
            && MatchingAhead(rank, last, t1, c, p) == MatchingAhead(rank, cursor, t, c, p) - page
            && page <= MatchingAhead(rank, cursor, t, c, p)
            && KidsOf(MatchingAhead(rank, cursor, t, c, p))
                 == KidsOf(page) + KidsOf(MatchingAhead(rank, last, t1, c, p))
            && (forall pk :: pk in t1 && OfPurpose(c, p, pk) ==> pk in t && t1[pk] == t[pk])
            && (page == {} ==> t1 == t)
  {
    var t1 := ConvertedSoFar(t, c, p, f, KidsOf(page), KidsOf(page));
    var before, after := MatchingAhead(rank, cursor, t, c, p), MatchingAhead(rank, last, t1, c, p);
    forall pk ensures pk in after <==> pk in before && pk !in page {
      if OfPurpose(c, p, pk) {
        assert pk.kid in KidsOf(page) ==> exists q :: q in page && q.kid == pk.kid;
        assert pk in page <==> pk.kid in KidsOf(page);
      }
    }
    assert before == page + after;
    if page == {} {
      assert KidsOf(page) == {};
    }
  }

  /** Entries that the new state does not have are gone, in whole or in part, the others stay. */
  lemma DroppingKeepsBetween(row: Option<ClientRow>, t: Tokens, c: ClientId, a: Account, m: ClientMessageV1,
                             gone: set<TokenKey>)
    requires Between(row, t, c, a, m) && Superfluous(gone, c, Next(Some(a), m)) && !m.event.PurposeAdded?
    requires m.event.PurposeRemoved? ==> a.purposes != {} && Next(Some(a), m).value.purposes != {}
    ensures Between(row, t - gone, c, a, m) && SameElsewhere(t, t - gone, c)
  {
    SwapKeepsBetween(row, t, c, a, m, map[], gone);
    assert t + map[] - gone == t - gone;
  }

  /** The new state of a message that only takes entries away. */
  lemma DroppingComplete(row: Option<ClientRow>, t: Tokens, c: ClientId, a: Account, m: ClientMessageV1)
    requires m.event.KeyDeleted? || m.event.PurposeRemoved? || m.event.ClientGone?
    requires a.version <= m.version || m.event.ClientGone?
    requires Between(row, t, c, a, m) && RowShows(row, Next(Some(a), m))
    requires m.event.PurposeRemoved? ==> a.purposes != {} && Next(Some(a), m).value.purposes != {}
    requires forall pk :: pk in t && pk.client == c ==> pk in Expected(c, Next(Some(a), m))
    ensures Represents(row, t, c, Next(Some(a), m))
  {
    Completed(row, t, c, a, m);
  }

  lemma AllMatching(rank: TokenKey -> int, t: Tokens, c: ClientId, p: PurposeId)
    ensures forall kid :: kid in KidsOf(MatchingAhead(rank, None, t, c, p)) <==> ClientKidPurpose(c, kid, p) in t
  {
    forall kid | ClientKidPurpose(c, kid, p) in t
      ensures kid in KidsOf(MatchingAhead(rank, None, t, c, p))
    {
      assert ClientKidPurpose(c, kid, p) in MatchingAhead(rank, None, t, c, p);
    }
  }

  lemma DeletionKeepsAttempted(t: Tokens, c: ClientId, a: Option<Account>, m: ClientMessageV1, gone: set<TokenKey>)
    requires m.event.ClientGone? && Attempted(None, t, c, a, m) && forall pk :: pk in gone ==> pk.client == c
    ensures Attempted(None, t - gone, c, a, m) && SameElsewhere(t, t - gone, c)
    ensures (forall pk :: pk in t - gone ==> pk.client != c) ==> Represents(None, t - gone, c, None)
  {
    if a.Some? {
      DroppingKeepsBetween(None, t, c, a.value, m, gone);
    }
  }

  /** The row that the message makes of the row found. */
  function UpdatedRow(row: ClientRow, m: ClientMessageV1): ClientRow {
    match m.event
    case PurposeAdded(p) => row.(purposes := Deduplicated(row.purposes + [p]), version := m.version)
    case PurposeRemoved(p) => row.(purposes := Without(row.purposes, p), version := m.version)
    case _ => row.(version := m.version)
  }

  /** Whether the row found is still the one before the message or already the one after. */
  lemma RowUpdates(row: Option<ClientRow>, t: Tokens, c: ClientId, a: Account, m: ClientMessageV1)
    requires Between(row, t, c, a, m) && !m.event.ClientGone? && !m.event.ClientAdded? && !m.event.OtherEvent?
    ensures row.Some? && (row.value.version > m.version <==> a.version > m.version)
    ensures a.version <= m.version ==> RowShows(Some(UpdatedRow(row.value, m)), Next(Some(a), m))
  {
    if m.event.PurposeAdded? {
      assert PurposeSet(row.value.purposes + [m.event.purpose]) == PurposeSet(row.value.purposes) + {m.event.purpose};
    }
  }

  /* ---- runs ---- */

  /** The client as the messages so far describe it. */
  function AccountAfter(c: ClientId, ms: seq<ClientMessageV1>): Option<Account> {
    if ms == [] then None
    else
      var before, m := AccountAfter(c, ms[..|ms| - 1]), ms[|ms| - 1];
      if m.client == c then Next(before, m) else before
  }

  predicate PlausibleRun(ms: seq<ClientMessageV1>) {
    forall k :: 0 <= k < |ms| ==> Plausible(AccountAfter(ms[k].client, ms[..k]), ms[k])
  }

  lemma AccountAfterNext(c: ClientId, ms: seq<ClientMessageV1>, n: nat)
    requires n < |ms|
    ensures AccountAfter(c, ms[..n + 1])
            == if ms[n].client == c then Next(AccountAfter(c, ms[..n]), ms[n]) else AccountAfter(c, ms[..n])
  {
    assert ms[..n + 1][..n] == ms[..n];
  }

  lemma RepresentsElsewhere(row: Option<ClientRow>, t: Tokens, t1: Tokens, c: ClientId, a: Option<Account>,
                            other: ClientId)
    requires Represents(row, t, c, a) && SameElsewhere(t, t1, other) && c != other
    ensures Represents(row, t1, c, a)
  {
  }

  class ClientDatabase {
    var clients: map<ClientId, ClientRow>
    var tokens: Tokens
    var budget: nat
    const platform: Rows
    const rank: TokenKey -> int

    constructor (platform: Rows, rank: TokenKey -> int)
      ensures clients == map[] && tokens == map[] && this.platform == platform && this.rank == rank
    {
      clients, tokens, budget := map[], map[], 0;
      this.platform, this.rank := platform, rank;
    }

    /** A new attempt, that will get as far as `writes` writes. */
    method Restart(writes: nat)
      modifies this`budget
      ensures budget == writes
    {
      budget := writes;
    }

    method PutRow(c: ClientId, row: ClientRow) returns (alive: bool)
      modifies this`clients, this`budget
      ensures clients == if alive then old(clients)[c := row] else old(clients)
      ensures alive <==> old(budget) > 0
      ensures budget == if alive then old(budget) - 1 else 0
    {
      alive := budget > 0;
      if alive { clients, budget := clients[c := row], budget - 1; }
    }

    method DropRow(c: ClientId) returns (alive: bool)
      modifies this`clients, this`budget
      ensures clients == if alive then old(clients) - {c} else old(clients)
      ensures alive <==> old(budget) > 0
      ensures budget == if alive then old(budget) - 1 else 0
    {
      alive := budget > 0;
      if alive { clients, budget := clients - {c}, budget - 1; }
    }

    method Put(pk: TokenKey, e: TokenEntry) returns (alive: bool)
      modifies this`tokens, this`budget
      ensures tokens == if alive then old(tokens)[pk := e] else old(tokens)
      ensures alive <==> old(budget) > 0
      ensures budget == if alive then old(budget) - 1 else 0
    {
      alive := budget > 0;
      if alive { tokens, budget := tokens[pk := e], budget - 1; }
    }

    method Drop(pk: TokenKey) returns (alive: bool)
      modifies this`tokens, this`budget
      ensures tokens == if alive then old(tokens) - {pk} else old(tokens)
      ensures alive <==> old(budget) > 0
      ensures budget == if alive then old(budget) - 1 else 0
    {
      alive := budget > 0;
      if alive { tokens, budget := tokens - {pk}, budget - 1; }
    }

    /** One page of a scan: the selected keys among those evaluated after the cursor. */
    method ScanPage(selects: TokenKey -> bool, cursor: Option<int>) returns (page: set<TokenKey>, last: Option<int>)
      ensures last.Some? ==> Ahead(rank, last, tokens) < Ahead(rank, cursor, tokens)
      ensures last.Some? ==> cursor.None? || last.value >= cursor.value
      ensures last.None? ==> page == Matching(Ahead(rank, cursor, tokens), selects)
      ensures last.Some? ==> page == Matching(Ahead(rank, cursor, tokens) - Ahead(rank, last, tokens), selects)
    {
      var ahead := Ahead(rank, cursor, tokens);
      last := None;
      if ahead != {} {
        var first :| first in ahead;
        var limit: int := *;
        if limit < rank(first) { limit := rank(first); }
        var more: bool := *;
        if more {
          assert first !in Ahead(rank, Some(limit), tokens);
          last := Some(limit);
        }
      }
      page := Matching(if last.None? then ahead else ahead - Ahead(rank, last, tokens), selects);
    }
 
    /* ---- paged walks ---- */

    /** Deletes the selected keys of the pages after the cursor, one by one. */
    method DropWhere(selects: TokenKey -> bool, cursor: Option<int>) returns (alive: bool)
      modifies this`tokens, this`budget
      decreases Ahead(rank, cursor, tokens)
      ensures exists gone :: gone <= Matching(Ahead(rank, cursor, old(tokens)), selects) && tokens == old(tokens) - gone
      ensures alive ==> tokens == old(tokens) - Matching(Ahead(rank, cursor, old(tokens)), selects)
      ensures alive || budget == 0
    {
      var page, last := ScanPage(selects, cursor);
      alive := true;
      var pending := page;
      while pending != {}
        invariant pending <= page
        invariant tokens == old(tokens) - (page - pending)
      {
        var pk :| pk in pending;
        alive := Drop(pk);
        if !alive { return; }
        pending := pending - {pk};
      }
      if last.Some? {
        ghost var rest := tokens;
        assert Ahead(rank, last, tokens) == Ahead(rank, last, old(tokens));
        alive := DropWhere(selects, last);
        ghost var gone :| gone <= Matching(Ahead(rank, last, rest), selects) && tokens == rest - gone;
        assert tokens == old(tokens) - (page + gone);
      }
    }

    /** All keys of the client, from every page of a scan. */
    method ReadClient(c: ClientId, cursor: Option<int>) returns (entries: seq<TokenKey>)
      decreases Ahead(rank, cursor, tokens)
      ensures forall pk :: pk in entries <==> pk in Ahead(rank, cursor, tokens) && pk.client == c
    {
      var page, last := ScanPage((pk: TokenKey) => pk.client == c, cursor);
      entries := [];
      var pending := page;
      while pending != {}
        invariant pending <= page
        invariant forall pk :: pk in entries <==> pk in page - pending
      {
        var pk :| pk in pending;
        entries := entries + [pk];
        pending := pending - {pk};
      }
      if last.Some? {
        var others := ReadClient(c, last);
        entries := entries + others;
      }
    }

    /* ---- KeysAdded ---- */

    /** Puts for one key, one per purpose; `added` holds the entries as built in memory. */
    method PutKey(c: ClientId, kid: string, pem: string, row: ClientRow) returns (alive: bool, added: Tokens)
      modifies this`tokens, this`budget
      ensures exists i: nat ::
                i <= |row.purposes| && tokens
                  == old(tokens) + KeyTokens(c, kid, row.purposes[..i], Maker(platform, row.consumer, pem))
      ensures alive ==> tokens == old(tokens) + KeyTokens(c, kid, row.purposes, Maker(platform, row.consumer, pem))
      ensures alive ==> forall pk :: pk in added ==>
                pk in CompleteKeys(c, {kid}, PurposeSet(row.purposes)) && added[pk].ConsumerEntry?
      ensures alive || budget == 0
    {
      var i := 0;
      alive, added := true, map[];
      while i < |row.purposes|
        invariant 0 <= i <= |row.purposes|
        invariant tokens == old(tokens) + KeyTokens(c, kid, row.purposes[..i], Maker(platform, row.consumer, pem))
        invariant forall pk :: pk in added ==>
                    pk in CompleteKeys(c, {kid}, PurposeSet(row.purposes)) && added[pk].ConsumerEntry?
      {
        KeyTokensStep(old(tokens), c, kid, row.purposes, i, Maker(platform, row.consumer, pem));
        var pk, e := ClientKidPurpose(c, kid, row.purposes[i]),
          NewEntry(row.consumer, pem, Retrieve(platform, row.purposes[i]));
        alive := Put(pk, Stored(e));
        if !alive { return; }
        added := added[pk := e];
        i := i + 1;
      }
      assert row.purposes[..i] == row.purposes;
    }

    /** The update of an entry, conditional on its existence. */
    method Amend(pk: TokenKey, e: TokenEntry, r: Retrieved) returns (alive: bool)
      requires e.ConsumerEntry? && pk in tokens && tokens[pk].ConsumerEntry?
      modifies this`tokens, this`budget
      ensures tokens == if alive then old(tokens)[pk := Rechecked(e, old(tokens)[pk], r)] else old(tokens)
      ensures alive <==> old(budget) > 0
      ensures alive || budget == 0
    {
      alive := Put(pk, Rechecked(e, tokens[pk], r));
    }

    /** The second retrieval for entries just put, `added` being how they were built in memory. */
    method Recheck(added: Tokens) returns (alive: bool)
      requires forall pk :: pk in added ==>
                 pk.ClientKidPurpose? && added[pk].ConsumerEntry? && pk in tokens && tokens[pk].ConsumerEntry?
      modifies this`tokens, this`budget
      ensures tokens.Keys == old(tokens).Keys
      ensures forall pk :: pk in tokens ==>
                tokens[pk] == old(tokens)[pk]
                  || (pk in added && EntryShows(tokens[pk], old(tokens)[pk].consumer, old(tokens)[pk].publicKey))
      ensures alive || budget == 0
    {
      var pending := added.Keys;
      alive := true;
      while pending != {}
        invariant pending <= added.Keys
        invariant tokens.Keys == old(tokens).Keys
        invariant forall pk :: pk in tokens ==>
                    tokens[pk] == old(tokens)[pk]
                      || (pk in added && EntryShows(tokens[pk], old(tokens)[pk].consumer, old(tokens)[pk].publicKey))
      {
        var pk :| pk in pending;
        alive := Amend(pk, added[pk], Retrieve(platform, pk.purpose));
        if !alive { return; }
        pending := pending - {pk};
      }
    }

    method AddPartialKey(c: ClientId, kid: string, pem: string, row: ClientRow, ghost a: Account,
                         ghost m: ClientMessageV1)
      returns (alive: bool)
      requires m.event == KeysAdded(kid, pem) && a.version <= m.version && |row.purposes| == 0
      requires Between(Some(row), tokens, c, a, m) && RowShows(Some(row), Next(Some(a), m))
      modifies this`tokens, this`budget
      ensures Between(Some(row), tokens, c, a, m) && SameElsewhere(old(tokens), tokens, c)
      ensures alive ==> Represents(Some(row), tokens, c, Next(Some(a), m))
      ensures alive || budget == 0
    {
      ghost var put := map[ClientKid(c, kid) := PartialEntry(row.consumer, pem)];
      PutsKeepBetween(Some(row), tokens, c, a, m, put);
      KeyComplete(row, tokens, c, a, m, put);
      alive := Put(ClientKid(c, kid), PartialEntry(row.consumer, pem));
      assert alive ==> tokens == old(tokens) + put;
    }

    method AddCompleteKey(c: ClientId, kid: string, pem: string, row: ClientRow, ghost a: Account,
                          ghost m: ClientMessageV1)
      returns (alive: bool)
      requires m.event == KeysAdded(kid, pem) && a.version <= m.version && a.purposes != {}
      requires Between(Some(row), tokens, c, a, m) && RowShows(Some(row), Next(Some(a), m))
      modifies this`tokens, this`budget
      ensures Between(Some(row), tokens, c, a, m) && SameElsewhere(old(tokens), tokens, c)
      ensures alive ==> Represents(Some(row), tokens, c, Next(Some(a), m))
      ensures alive || budget == 0
    {
      ghost var b := Next(Some(a), m).value;
      var added;
      alive, added := PutKey(c, kid, pem, row);
      if !alive {
        ghost var i: nat :| i <= |row.purposes|
          && tokens == old(tokens) + KeyTokens(c, kid, row.purposes[..i], Maker(platform, row.consumer, pem));
        assert PurposeSet(row.purposes[..i]) <= b.purposes;
        KeyTokensBelong(platform, c, row.consumer, kid, pem, row.purposes[..i], b);
        PutsKeepBetween(Some(row), old(tokens), c, a, m,
                        KeyTokens(c, kid, row.purposes[..i], Maker(platform, row.consumer, pem)));
        return;
      }
      KeyTokensBelong(platform, c, row.consumer, kid, pem, row.purposes, b);
      PutsKeepBetween(Some(row), old(tokens), c, a, m,
                      KeyTokens(c, kid, row.purposes, Maker(platform, row.consumer, pem)));
      KeyComplete(row, old(tokens), c, a, m, KeyTokens(c, kid, row.purposes, Maker(platform, row.consumer, pem)));
      ghost var put := tokens;
      assert forall pk :: pk in added ==> pk in KeyTokens(c, kid, row.purposes, Maker(platform, row.consumer, pem));
      AmendableEntries(Some(row), put, c, Some(b), added.Keys);
      alive := Recheck(added);
      AmendmentKeepsBetween(Some(row), put, tokens, c, a, m);
      AmendmentRepresents(Some(row), put, tokens, c, Some(b));
    }

    /* ---- ClientPurposeAdded ---- */

    /** The put of an entry, then the removal of the one it takes the place of. */
    method PutThenDrop(pk: TokenKey, e: TokenEntry, dropping: bool, gone: TokenKey)
      returns (alive: bool, ghost half: bool)
      modifies this`tokens, this`budget
      ensures alive ==> !half && tokens == if dropping then old(tokens)[pk := e] - {gone} else old(tokens)[pk := e]
      ensures !alive ==> tokens == if half then old(tokens)[pk := e] else old(tokens)
      ensures alive || budget == 0
    {
      half := false;
      alive := Put(pk, e);
      if alive && dropping {
        alive := Drop(gone);
        half := !alive;
      }
    }

    /** One entry of the scan becomes complete, and goes if it was partial. */
    method SwapEntry(c: ClientId, p: PurposeId, entries: seq<TokenKey>, n: nat, ghost scanned: Tokens, e: TokenEntry,
                     ghost f: TokenKey -> TokenEntry)
      returns (alive: bool, ghost half: bool)
      requires n < |entries| && tokens == Swapped(scanned, c, entries, p, f, n)
      requires Stored(e) == f(ClientKidPurpose(c, entries[n].kid, p))
      modifies this`tokens, this`budget
      ensures alive ==>
                !half && tokens == Swapped(scanned, c, entries, p, f, n + 1)
                && ClientKidPurpose(c, entries[n].kid, p) in tokens
      ensures !alive ==> tokens == if half
              then var pk := ClientKidPurpose(c, entries[n].kid, p); old(tokens)[pk := f(pk)] else old(tokens)
      ensures forall pk :: pk in old(tokens) && pk.ClientKidPurpose? ==> pk in tokens
      ensures alive || budget == 0
    {
      var pk := ClientKidPurpose(c, entries[n].kid, p);
      alive, half := PutThenDrop(pk, Stored(e), entries[n].ClientKid?, entries[n]);
    }

    /** The first purpose: every entry of the scan becomes complete, and partial ones go.  A crash
        between the two leaves the entry `half` done. */
    method SwapEntries(c: ClientId, p: PurposeId, entries: seq<TokenKey>, ghost f: TokenKey -> TokenEntry)
      returns (alive: bool, added: Tokens, ghost i: nat, ghost half: bool)
      requires Makes(f, platform, tokens, c, entries, p)
      modifies this`tokens, this`budget
      ensures i <= |entries| && (half ==> i < |entries|) && (alive ==> i == |entries| && !half)
      ensures var done := Swapped(old(tokens), c, entries, p, f, i);
              tokens == if half then var pk := ClientKidPurpose(c, entries[i].kid, p); done[pk := f(pk)] else done
      ensures forall pk :: pk in added ==>
                pk.ClientKidPurpose? && pk.client == c && added[pk].ConsumerEntry? && pk in tokens
      ensures alive || budget == 0
    {
      var scanned, n := tokens, 0;
      alive, added, i, half := true, map[], 0, false;
      while n < |entries|
        invariant n == i <= |entries|
        invariant tokens == Swapped(scanned, c, entries, p, f, n) && !half
        invariant forall pk :: pk in added ==>
                    pk.ClientKidPurpose? && pk.client == c && added[pk].ConsumerEntry? && pk in tokens
      {
        var e := BuiltFor(platform, scanned, entries[n], p);
        alive, half := SwapEntry(c, p, entries, n, scanned, e, f);
        if !alive { return; }
        added := added[ClientKidPurpose(c, entries[n].kid, p) := e];
        n, i := n + 1, i + 1;
      }
    }

    /** One entry of the scan: its kid gets an entry for the purpose, unless an earlier one shared it. */
    method ExtendEntry(c: ClientId, p: PurposeId, entries: seq<TokenKey>, n: nat, seenKids: set<string>,
                       ghost scanned: Tokens, e: TokenEntry, ghost f: TokenKey -> TokenEntry)
      returns (alive: bool, put: bool)
      requires n < |entries| && seenKids == KidsAmong(entries, n) && tokens == Extended(scanned, c, entries, p, f, n)
      requires Stored(e) == f(ClientKidPurpose(c, entries[n].kid, p))
      modifies this`tokens, this`budget
      ensures tokens == if alive then Extended(scanned, c, entries, p, f, n + 1) else old(tokens)
      ensures alive && put ==> ClientKidPurpose(c, entries[n].kid, p) in tokens
      ensures forall pk :: pk in old(tokens) ==> pk in tokens
      ensures alive || budget == 0
    {
      alive, put := true, entries[n].kid !in seenKids;
      if put {
        alive := Put(ClientKidPurpose(c, entries[n].kid, p), Stored(e));
      }
    }

    /** One more entry of the scan. */
    method ExtendNext(c: ClientId, p: PurposeId, entries: seq<TokenKey>, n: nat, seenKids: set<string>,
                      ghost scanned: Tokens, e: TokenEntry, ghost f: TokenKey -> TokenEntry, added: Tokens)
      returns (alive: bool, seenKids1: set<string>, added1: Tokens)
      requires n < |entries| && seenKids == KidsAmong(entries, n) && tokens == Extended(scanned, c, entries, p, f, n)
      requires Stored(e) == f(ClientKidPurpose(c, entries[n].kid, p)) && e.ConsumerEntry? && Adds(added, c)
      modifies this`tokens, this`budget
      ensures tokens == if alive then Extended(scanned, c, entries, p, f, n + 1) else old(tokens)
      ensures alive ==> seenKids1 == KidsAmong(entries, n + 1)
      ensures Adds(added1, c) && forall pk :: pk in old(tokens) ==> pk in tokens
      ensures forall pk :: pk in added1 ==> pk in added || pk in tokens
      ensures alive || budget == 0
    {
      var put;
      alive, put := ExtendEntry(c, p, entries, n, seenKids, scanned, e, f);
      added1 := if alive && put then added[ClientKidPurpose(c, entries[n].kid, p) := e] else added;
      KidsAmongStep(entries, n);
      seenKids1 := seenKids + {entries[n].kid};
    }

    /** A further purpose: one entry for every kid of the scan. */
    method ExtendEntries(c: ClientId, p: PurposeId, entries: seq<TokenKey>, ghost f: TokenKey -> TokenEntry)
      returns (alive: bool, added: Tokens, ghost i: nat)
      requires Makes(f, platform, tokens, c, entries, p)
      modifies this`tokens, this`budget
      ensures i <= |entries| && tokens == Extended(old(tokens), c, entries, p, f, i) && (alive ==> i == |entries|)
      ensures forall pk :: pk in added ==>
                pk.ClientKidPurpose? && pk.client == c && added[pk].ConsumerEntry? && pk in tokens
      ensures alive || budget == 0
    {
      var scanned, n, seenKids := tokens, 0, {};
      alive, added, i := true, map[], 0;
      while n < |entries|
        invariant n == i <= |entries| && seenKids == KidsAmong(entries, n)
        invariant tokens == Extended(scanned, c, entries, p, f, n)
        invariant Adds(added, c) && forall pk :: pk in added ==> pk in tokens
      {
        var e := BuiltFor(platform, scanned, entries[n], p);
        alive, seenKids, added := ExtendNext(c, p, entries, n, seenKids, scanned, e, f, added);
        if !alive { return; }
        n, i := n + 1, i + 1;
      }
    }

    /** The second retrieval. */
    method RecheckPurpose(c: ClientId, row: ClientRow, added: Tokens, ghost a: Account, ghost m: ClientMessageV1)
      returns (alive: bool)
      requires Between(Some(row), tokens, c, a, m) && Represents(Some(row), tokens, c, Next(Some(a), m))
      requires forall pk :: pk in added ==>
                 pk.ClientKidPurpose? && added[pk].ConsumerEntry? && pk in tokens && pk.client == c
      modifies this`tokens, this`budget
      ensures Between(Some(row), tokens, c, a, m) && SameElsewhere(old(tokens), tokens, c)
      ensures Represents(Some(row), tokens, c, Next(Some(a), m))
      ensures alive || budget == 0
    {
      AmendableEntries(Some(row), tokens, c, Next(Some(a), m), added.Keys);
      alive := Recheck(added);
      AmendmentKeepsBetween(Some(row), old(tokens), tokens, c, a, m);
      AmendmentRepresents(Some(row), old(tokens), tokens, c, Next(Some(a), m));
    }

    /** The puts and deletes for the entries of the scan. */
    method JoinEntries(c: ClientId, p: PurposeId, entries: seq<TokenKey>, row: ClientRow, ghost a: Account,
                       ghost m: ClientMessageV1)
      returns (alive: bool, added: Tokens)
      requires m.event == PurposeAdded(p) && a.version <= m.version && |row.purposes| == |PurposeSet(row.purposes)|
      requires Between(Some(row), tokens, c, a, m) && RowShows(Some(row), Next(Some(a), m))
               && Scanned(tokens, entries, c, a)
      modifies this`tokens, this`budget
      ensures Between(Some(row), tokens, c, a, m) && SameElsewhere(old(tokens), tokens, c)
      ensures alive ==> Represents(Some(row), tokens, c, Next(Some(a), m))
      ensures forall pk :: pk in added ==>
                pk.ClientKidPurpose? && added[pk].ConsumerEntry? && pk in tokens && pk.client == c
      ensures alive || budget == 0
    {
      ghost var f := MakerOf(platform, a.consumer, a.keys);
      ScannedMakes(platform, tokens, c, a, entries, p);
      ghost var i, half := 0, false;
      if |row.purposes| - 1 == 0 {
        alive, added, i, half := SwapEntries(c, p, entries, f);
        Swapping(row, platform, old(tokens), c, a, m, entries, i, half);
      } else {
        alive, added, i := ExtendEntries(c, p, entries, f);
        Extending(row, platform, old(tokens), c, a, m, entries, i);
      }
    }

    method AddPurpose(c: ClientId, p: PurposeId, row: ClientRow, ghost a: Account, ghost m: ClientMessageV1)
      returns (alive: bool)
      requires m.event == PurposeAdded(p) && a.version <= m.version && |row.purposes| == |PurposeSet(row.purposes)|
      requires Between(Some(row), tokens, c, a, m) && RowShows(Some(row), Next(Some(a), m))
      modifies this`tokens, this`budget
      ensures Between(Some(row), tokens, c, a, m) && SameElsewhere(old(tokens), tokens, c)
      ensures alive ==> Represents(Some(row), tokens, c, Next(Some(a), m))
      ensures alive || budget == 0
    {
      var entries := ReadClient(c, None);
      ScanShowsClient(Some(row), tokens, c, a, m, entries);
      if entries == [] {
        PurposeComplete(Some(row), platform, tokens, c, a, m, entries, a.purposes <= {p});
        AddedNothing(tokens, c, entries, p, MakerOf(platform, a.consumer, a.keys), a.purposes <= {p});
        return true;
      }
      var added;
      alive, added := JoinEntries(c, p, entries, row, a, m);
      if alive {
        alive := RecheckPurpose(c, row, added, a, m);
      }
    }

    /* ---- ClientPurposeRemoved ---- */

    /** The put of an entry's partial form, then the removal of the entry. */
    method ConvertEntry(c: ClientId, p: PurposeId, pk: TokenKey, e: TokenEntry, ghost scanned: Tokens,
                        ghost f: TokenKey -> TokenEntry, ghost done: set<string>)
      returns (alive: bool, ghost half: bool)
      requires OfPurpose(c, p, pk) && e.ConsumerEntry?
               && f(ClientKid(c, pk.kid)) == PartialEntry(e.consumer, e.publicKey)
      requires tokens == ConvertedSoFar(scanned, c, p, f, done, done)
      modifies this`tokens, this`budget
      ensures alive ==> !half && tokens == ConvertedSoFar(scanned, c, p, f, done + {pk.kid}, done + {pk.kid})
      ensures !alive ==> tokens == ConvertedSoFar(scanned, c, p, f, if half then done + {pk.kid} else done, done)
      ensures alive || budget == 0
    {
      ConvertedPut(scanned, c, p, f, done, done, pk.kid);
      ConvertedDrop(scanned, c, p, f, done + {pk.kid}, done, pk.kid);
      alive, half := PutThenDrop(ClientKid(c, pk.kid), PartialEntry(e.consumer, e.publicKey), true, pk);
    }

    /** Each entry of the page in turn. */
    method ConvertPage(c: ClientId, p: PurposeId, page: set<TokenKey>, ghost f: TokenKey -> TokenEntry)
      returns (alive: bool, ghost put: set<string>, ghost moved: set<string>)
      requires forall pk :: pk in page ==>
                 pk in tokens && OfPurpose(c, p, pk) && tokens[pk].ConsumerEntry?
                 && f(ClientKid(c, pk.kid)) == PartialEntry(tokens[pk].consumer, tokens[pk].publicKey)
      modifies this`tokens, this`budget
      ensures moved <= put <= KidsOf(page) && tokens == ConvertedSoFar(old(tokens), c, p, f, put, moved)
      ensures alive ==> moved == put == KidsOf(page)
      ensures alive || budget == 0
    {
      var scanned, pending := tokens, page;
      alive, put, moved := true, {}, {};
      assert ConvertedSoFar(tokens, c, p, f, {}, {}) == tokens;
      while pending != {}
        invariant pending <= page && moved == put == KidsOf(page - pending)
        invariant tokens == ConvertedSoFar(scanned, c, p, f, put, moved)
      {
        var pk :| pk in pending;
        ghost var half;
        alive, half := ConvertEntry(c, p, pk, scanned[pk], scanned, f, put);
        if !alive {
          put := if half then put + {pk.kid} else put;
          return;
        }
        KidsOfStep(page - pending, pk);
        assert page - (pending - {pk}) == page - pending + {pk};
        put, moved := put + {pk.kid}, moved + {pk.kid};
        pending := pending - {pk};
      }
      assert page - pending == page;
    }

    /** The conversion walk: it inserts a partial entry for every complete one that it deletes, so the
        keys ahead of the cursor need not get fewer, but those that match do, or else the cursor moves. */
    method Convert(c: ClientId, p: PurposeId, cursor: Option<int>, ghost f: TokenKey -> TokenEntry)
      returns (alive: bool, ghost put: set<string>, ghost moved: set<string>)
      requires forall pk :: pk in tokens && OfPurpose(c, p, pk) ==>
                 tokens[pk].ConsumerEntry?
                   && f(ClientKid(c, pk.kid)) == PartialEntry(tokens[pk].consumer, tokens[pk].publicKey)
      modifies this`tokens, this`budget
      decreases MatchingAhead(rank, cursor, tokens, c, p), Ahead(rank, cursor, tokens)
      ensures moved <= put <= KidsOf(MatchingAhead(rank, cursor, old(tokens), c, p))
      ensures tokens == ConvertedSoFar(old(tokens), c, p, f, put, moved)
      ensures alive ==> moved == put == KidsOf(MatchingAhead(rank, cursor, old(tokens), c, p))
      ensures alive || budget == 0
    {
      var page, last := ScanPage((pk: TokenKey) => OfPurpose(c, p, pk), cursor);
      ghost var scanned, matching := tokens, MatchingAhead(rank, cursor, tokens, c, p);
      alive, put, moved := ConvertPage(c, p, page, f);
      if !alive || last.None? { return; }
      MatchingAfterPage(rank, cursor, last, scanned, c, p, f, page);
      ghost var paged, more, done := tokens, {}, {};
      alive, more, done := Convert(c, p, last, f);
      ConvertedTwice(scanned, c, p, f, KidsOf(page), more, done);
      put, moved := KidsOf(page) + more, KidsOf(page) + done;
    }

    method RemovePurpose(c: ClientId, p: PurposeId, row: ClientRow, ghost a: Account, ghost m: ClientMessageV1)
      returns (alive: bool)
      requires m.event == PurposeRemoved(p) && a.version <= m.version
      requires Between(Some(row), tokens, c, a, m) && RowShows(Some(row), Next(Some(a), m))
      modifies this`tokens, this`budget
      ensures Between(Some(row), tokens, c, a, m) && SameElsewhere(old(tokens), tokens, c)
      ensures alive ==> Represents(Some(row), tokens, c, Next(Some(a), m))
      ensures alive || budget == 0
    {
      if |row.purposes| > 0 {
        assert row.purposes[0] in Next(Some(a), m).value.purposes;
        alive := DropWhere((pk: TokenKey) => OfPurpose(c, p, pk), None);
        ghost var gone :| gone <= Matching(Ahead(rank, None, old(tokens)), (pk: TokenKey) => OfPurpose(c, p, pk))
          && tokens == old(tokens) - gone;
        DroppingKeepsBetween(Some(row), old(tokens), c, a, m, gone);
        if alive {
          forall pk | pk in tokens && pk.client == c ensures pk in Expected(c, Next(Some(a), m)) {
            assert Transitional(pk, tokens[pk], c, a, Next(Some(a), m));
            assert !OfPurpose(c, p, pk);
          }
          DroppingComplete(Some(row), tokens, c, a, m);
        }
      } else {
        alive := ConvertAll(c, p, row, a, m);
      }
    }

    method ConvertAll(c: ClientId, p: PurposeId, row: ClientRow, ghost a: Account, ghost m: ClientMessageV1)
      returns (alive: bool)
      requires m.event == PurposeRemoved(p) && a.version <= m.version && |row.purposes| == 0
      requires Between(Some(row), tokens, c, a, m) && RowShows(Some(row), Next(Some(a), m))
      modifies this`tokens, this`budget
      ensures Between(Some(row), tokens, c, a, m) && SameElsewhere(old(tokens), tokens, c)
      ensures alive ==> Represents(Some(row), tokens, c, Next(Some(a), m))
      ensures alive || budget == 0
    {
      ghost var f, put, moved := PartialMaker(a.consumer, a.keys), {}, {};
      ghost var all := KidsOf(MatchingAhead(rank, None, tokens, c, p));
      assert Next(Some(a), m).value.purposes == {};
      forall pk | pk in tokens && OfPurpose(c, p, pk)
        ensures tokens[pk].ConsumerEntry?
                && f(ClientKid(c, pk.kid)) == PartialEntry(tokens[pk].consumer, tokens[pk].publicKey)
      {
        assert Transitional(pk, tokens[pk], c, a, Next(Some(a), m));
      }
      AllMatching(rank, tokens, c, p);
      ConversionComplete(Some(row), tokens, c, a, m, all);
      alive, put, moved := Convert(c, p, None, f);
      ConvertingKeepsBetween(Some(row), old(tokens), c, a, m, put, moved);
    }

    /* ---- KeyDeleted, ClientDeleted ---- */

    /** Two scans, one for each form of key. */
    method DropEntries(selects: TokenKey -> bool) returns (alive: bool, ghost gone: set<TokenKey>)
      modifies this`tokens, this`budget
      ensures tokens == old(tokens) - gone && forall pk :: pk in gone ==> selects(pk)
      ensures alive ==> forall pk :: pk in tokens ==> !selects(pk)
      ensures alive || budget == 0
    {
      alive := DropWhere((pk: TokenKey) => pk.ClientKid? && selects(pk), None);
      ghost var between := tokens;
      gone :| gone <= Matching(Ahead(rank, None, old(tokens)), (pk: TokenKey) => pk.ClientKid? && selects(pk))
        && tokens == old(tokens) - gone;
      if !alive { return; }
      alive := DropWhere((pk: TokenKey) => pk.ClientKidPurpose? && selects(pk), None);
      ghost var more :| more <= Matching(Ahead(rank, None, between),
                                         (pk: TokenKey) => pk.ClientKidPurpose? && selects(pk))
                                           && tokens == between - more;
      gone := gone + more;
      assert tokens == old(tokens) - gone;
    }

    method DeleteKey(c: ClientId, kid: string, row: ClientRow, ghost a: Account, ghost m: ClientMessageV1)
      returns (alive: bool)
      requires m.event == KeyDeleted(kid) && a.version <= m.version
      requires Between(Some(row), tokens, c, a, m) && RowShows(Some(row), Next(Some(a), m))
      modifies this`tokens, this`budget
      ensures Between(Some(row), tokens, c, a, m) && SameElsewhere(old(tokens), tokens, c)
      ensures alive ==> Represents(Some(row), tokens, c, Next(Some(a), m))
      ensures alive || budget == 0
    {
      ghost var gone;
      alive, gone := DropEntries((pk: TokenKey) => pk.client == c && pk.kid == kid);
      DroppingKeepsBetween(Some(row), old(tokens), c, a, m, gone);
      if alive {
        forall pk | pk in tokens && pk.client == c ensures pk in Expected(c, Next(Some(a), m)) {
          assert Transitional(pk, tokens[pk], c, a, Next(Some(a), m));
        }
        DroppingComplete(Some(row), tokens, c, a, m);
      }
    }

    /* ---- whole messages ---- */

    /** The part of a handler that follows the write of the row. */
    method UpdateEntries(m: ClientMessageV1, row: ClientRow, ghost a: Account) returns (alive: bool)
      requires m.event.KeysAdded? || m.event.KeyDeleted? || m.event.PurposeAdded? || m.event.PurposeRemoved?
      requires a.version <= m.version && (m.event.PurposeAdded? ==> |row.purposes| == |PurposeSet(row.purposes)|)
      requires Between(Some(row), tokens, m.client, a, m) && RowShows(Some(row), Next(Some(a), m))
      modifies this`tokens, this`budget
      ensures Between(Some(row), tokens, m.client, a, m) && SameElsewhere(old(tokens), tokens, m.client)
      ensures alive ==> Represents(Some(row), tokens, m.client, Next(Some(a), m))
      ensures alive || budget == 0
    {
      match m.event
      case KeysAdded(kid, pem) =>
        if |row.purposes| > 0 {
          assert row.purposes[0] in PurposeSet(row.purposes);
          alive := AddCompleteKey(m.client, kid, pem, row, a, m);
        } else {
          alive := AddPartialKey(m.client, kid, pem, row, a, m);
        }
      case KeyDeleted(kid) => alive := DeleteKey(m.client, kid, row, a, m);
      case PurposeAdded(p) => alive := AddPurpose(m.client, p, row, a, m);
      case PurposeRemoved(p) => alive := RemovePurpose(m.client, p, row, a, m);
    }

    /** KeysAdded, KeyDeleted, ClientPurposeAdded, ClientPurposeRemoved, for a client that exists. */
    method HandleUpdate(m: ClientMessageV1, ghost a: Account) returns (done: bool)
      requires m.event.KeysAdded? || m.event.KeyDeleted? || m.event.PurposeAdded? || m.event.PurposeRemoved?
      requires Between(Lookup(clients, m.client), tokens, m.client, a, m)
      modifies this`clients, this`tokens, this`budget
      ensures Between(Lookup(clients, m.client), tokens, m.client, a, m) && SameElsewhere(old(tokens), tokens, m.client)
      ensures forall d :: d != m.client ==> Lookup(clients, d) == Lookup(old(clients), d)
      ensures done ==> Represents(Lookup(clients, m.client), tokens, m.client, Next(Some(a), m))
      ensures done || budget == 0
    {
      var existing := Lookup(clients, m.client);
      RowUpdates(existing, tokens, m.client, a, m);
      if existing.value.version > m.version {
        BetweenSame(existing, tokens, m.client, a, m);
        return true;
      }
      var row := UpdatedRow(existing.value, m);
      RowWriteKeepsBetween(existing, Some(row), tokens, m.client, a, m);
      done := PutRow(m.client, row);
      if done {
        done := UpdateEntries(m, row, a);
      }
    }

    method HandleClientAdded(m: ClientMessageV1, ghost a: Option<Account>) returns (done: bool)
      requires m.event.ClientAdded? && Plausible(a, m) && Attempted(Lookup(clients, m.client), tokens, m.client, a, m)
      modifies this`clients, this`budget
      ensures Attempted(Lookup(clients, m.client), tokens, m.client, a, m)
      ensures forall d :: d != m.client ==> Lookup(clients, d) == Lookup(old(clients), d)
      ensures done ==> Represents(Lookup(clients, m.client), tokens, m.client, Next(a, m))
      ensures done || budget == 0
    {
      if m.client in clients && clients[m.client].version > m.version { return true; }
      done := PutRow(m.client, ClientRow(ConsumerClient, m.event.consumer, m.event.purposes, m.version));
    }

    method HandleClientDeleted(m: ClientMessageV1, ghost a: Option<Account>) returns (done: bool)
      requires m.event.ClientGone? && Attempted(Lookup(clients, m.client), tokens, m.client, a, m)
      modifies this`clients, this`tokens, this`budget
      ensures Attempted(Lookup(clients, m.client), tokens, m.client, a, m)
              && SameElsewhere(old(tokens), tokens, m.client)
      ensures forall d :: d != m.client ==> Lookup(clients, d) == Lookup(old(clients), d)
      ensures done ==> Represents(Lookup(clients, m.client), tokens, m.client, None)
      ensures done || budget == 0
    {
      done := DropRow(m.client);
      if !done { return; }
      assert Attempted(None, tokens, m.client, a, m);
      ghost var gone;
      done, gone := DropEntries((pk: TokenKey) => pk.client == m.client);
      DeletionKeepsAttempted(old(tokens), m.client, a, m, gone);
    }

    /** One attempt at a message.  Whatever earlier attempts at it left, this one keeps between the
        client before and the client after; if it completes, row and entries are those of the client
        after; and only running out of writes keeps it from completing. */
    method Attempt(m: ClientMessageV1, ghost a: Option<Account>) returns (done: bool)
      requires Plausible(a, m) && Attempted(Lookup(clients, m.client), tokens, m.client, a, m)
      modifies this`clients, this`tokens, this`budget
      ensures Attempted(Lookup(clients, m.client), tokens, m.client, a, m)
              && SameElsewhere(old(tokens), tokens, m.client)
      ensures forall d :: d != m.client ==> Lookup(clients, d) == Lookup(old(clients), d)
      ensures done ==> Represents(Lookup(clients, m.client), tokens, m.client, Next(a, m))
      ensures done || budget == 0
    {
      if m.event.OtherEvent? {
        if a.Some? {
          BetweenSame(Lookup(clients, m.client), tokens, m.client, a.value, m);
        }
        return true;
      }
      if m.event.ClientAdded? {
        done := HandleClientAdded(m, a);
      } else if m.event.ClientGone? {
        done := HandleClientDeleted(m, a);
      } else if m.client !in clients {
        done := true;
      } else {
        done := HandleUpdate(m, a.value);
      }
    }

    /** A message, delivered again as long as attempts at it crash: attempt number k gets as far as
        `lives[k]` writes.  The offset is committed, and the result true, once an attempt completes. */
    method Deliver(m: ClientMessageV1, lives: seq<nat>, ghost a: Option<Account>) returns (committed: bool)
      requires Plausible(a, m) && Represents(Lookup(clients, m.client), tokens, m.client, a)
      modifies this`clients, this`tokens, this`budget
      ensures SameElsewhere(old(tokens), tokens, m.client)
      ensures forall d :: d != m.client ==> Lookup(clients, d) == Lookup(old(clients), d)
      ensures committed ==> Represents(Lookup(clients, m.client), tokens, m.client, Next(a, m))
      ensures committed || lives == [] || budget == 0
    {
      RepresentsIsBetween(Lookup(clients, m.client), tokens, m.client, a, m);
      committed := false;
      var k := 0;
      while k < |lives| && !committed
        invariant 0 <= k <= |lives|
        invariant Attempted(Lookup(clients, m.client), tokens, m.client, a, m)
                  && SameElsewhere(old(tokens), tokens, m.client)
        invariant forall d :: d != m.client ==> Lookup(clients, d) == Lookup(old(clients), d)
        invariant committed ==> Represents(Lookup(clients, m.client), tokens, m.client, Next(a, m))
        invariant committed || k == 0 || budget == 0
      {
        Restart(lives[k]);
        committed := Attempt(m, a);
        k := k + 1;
      }
    }

    /** A run of the topic: each message is delivered until it is committed, and the consumer does not
        get past one that is not.  When `n` messages are committed, every client but the one whose
        message is still being attempted has exactly the entries that its messages call for. */
    method Consume(ms: seq<ClientMessageV1>, lives: seq<seq<nat>>) returns (n: nat)
      requires |lives| == |ms| && PlausibleRun(ms) && clients == map[] && tokens == map[]
      modifies this`clients, this`tokens, this`budget
      ensures n <= |ms|
      ensures forall c :: (n < |ms| ==> c != ms[n].client) ==>
                Represents(Lookup(clients, c), tokens, c, AccountAfter(c, ms[..n]))
      ensures n < |ms| ==> lives[n] == [] || budget == 0
    {
      n := 0;
      while n < |ms|
        invariant n <= |ms|
        invariant forall c :: Represents(Lookup(clients, c), tokens, c, AccountAfter(c, ms[..n]))
      {
        ghost var clientsBefore, tokensBefore := clients, tokens;
        ghost var a := AccountAfter(ms[n].client, ms[..n]);
        var committed := Deliver(ms[n], lives[n], a);
        forall c | c != ms[n].client
          ensures Represents(Lookup(clients, c), tokens, c, AccountAfter(c, ms[..n]))
        {
          RepresentsElsewhere(Lookup(clients, c), tokensBefore, tokens, c, AccountAfter(c, ms[..n]), ms[n].client);
        }
        if !committed { return; }
        forall c
          ensures Represents(Lookup(clients, c), tokens, c, AccountAfter(c, ms[..n + 1]))
        {
          AccountAfterNext(c, ms, n);
        }
        n := n + 1;
      }
    }
  }
}
