/** event-migration: the journal of the old event store replayed into numbered streams. */
module EventMigration {
  import opened Wrappers

  datatype Decoded = Decoded(stream: string, data: string)

  /** Entries without a type exist, and four types of the authorization journal are not migrated. */
  datatype EventType =
    | Missing
    | EServiceStateUpdated
    | AgreementStateUpdated
    | PurposeStateUpdated
    | AgreementAndEServiceStatesUpdated
    | Named(name: string)

  /** One journal entry; its payload may fail to decode. */
  datatype JournalEvent = JournalEvent(eventType: EventType, payload: Option<Decoded>)

  datatype MigratedEvent = MigratedEvent(stream: string, version: nat, eventType: EventType, data: string)

  /** What is being migrated: the authorization and tenant journals have events to leave out. */
  datatype Scope = Scope(isAuthorization: bool, isTenant: bool, tenants: set<string>)

  predicate SkippedByType(scope: Scope, e: JournalEvent) {
    e.eventType.Missing?
    || (scope.isAuthorization && (e.eventType.EServiceStateUpdated? || e.eventType.AgreementStateUpdated?
                                  || e.eventType.PurposeStateUpdated?
                                  || e.eventType.AgreementAndEServiceStatesUpdated?))
  }

  predicate SkippedByTenant(scope: Scope, d: Decoded) {
    scope.isTenant && d.stream !in scope.tenants
  }

  /** Entries whose payload has to be decoded, and can be. */
  predicate Readable(scope: Scope, e: JournalEvent) {
    SkippedByType(scope, e) || e.payload.Some?
  }

  predicate Kept(scope: Scope, e: JournalEvent) {
    !SkippedByType(scope, e) && e.payload.Some? && !SkippedByTenant(scope, e.payload.value)
  }

  function KeptEvents(scope: Scope, journal: seq<JournalEvent>): seq<JournalEvent> {
    if journal == [] then []
    else KeptEvents(scope, journal[..|journal| - 1]) + if Kept(scope, journal[|journal| - 1])
      then [journal[|journal| - 1]] else []
  }

  function CountOf(rows: seq<MigratedEvent>, stream: string): nat {
    if rows == [] then 0 else CountOf(rows[..|rows| - 1], stream) + if rows[|rows| - 1].stream == stream then 1 else 0
  }

  /** The rows of one stream, in the order of insertion. */
  function StreamOf(rows: seq<MigratedEvent>, stream: string): seq<MigratedEvent> {
    if rows == [] then []
    else StreamOf(rows[..|rows| - 1], stream) + if rows[|rows| - 1].stream == stream then [rows[|rows| - 1]] else []
  }

  /** Each row is its journal entry, in journal order, and continues the numbering of its stream. */
  predicate Migrates(rows: seq<MigratedEvent>, kept: seq<JournalEvent>) {
    && |rows| == |kept|
    && (rows == [] ||
        (var before, row, e := rows[..|rows| - 1], rows[|rows| - 1], kept[|kept| - 1];
         && Migrates(before, kept[..|kept| - 1])
         && e.payload.Some?
         && row == MigratedEvent(e.payload.value.stream, CountOf(before, row.stream), e.eventType,
                                 e.payload.value.data)))
  }

  /** The last version of every stream. */
  function LastVersions(rows: seq<MigratedEvent>): map<string, nat> {
    if rows == [] then map[] else LastVersions(rows[..|rows| - 1])[rows[|rows| - 1].stream := rows[|rows| - 1].version]
  }

  lemma Unreadable(scope: Scope, journal: seq<JournalEvent>, i: nat)
    requires i < |journal| && !Readable(scope, journal[i])
    ensures exists e :: e in journal && !Readable(scope, e)
  {
    assert journal[i] in journal;
  }

  /** The loop over the journal.  Migration fails at the first entry that does not decode, the rows
      inserted before it staying in place. */
  method Migrate(scope: Scope, journal: seq<JournalEvent>) returns (rows: seq<MigratedEvent>, skipped: nat, read: nat)
    ensures read <= |journal| && (read < |journal| <==> exists e :: e in journal && !Readable(scope, e))
    ensures read < |journal| ==> !Readable(scope, journal[read])
    ensures forall k :: 0 <= k < read ==> Readable(scope, journal[k])
    ensures Migrates(rows, KeptEvents(scope, journal[..read])) && skipped + |rows| == read
  {
    rows, skipped, read := [], 0, 0;
    var versions: map<string, nat> := map[];
    var i := 0;
    while i < |journal|
      invariant 0 <= i == read <= |journal| && skipped + |rows| == i
      invariant forall k :: 0 <= k < i ==> Readable(scope, journal[k])
      invariant Migrates(rows, KeptEvents(scope, journal[..i]))
      invariant versions == LastVersions(rows)
    {
      var e := journal[i];
      KeptNext(scope, journal, i);
      if SkippedByType(scope, e) {
        skipped := skipped + 1;
      } else if e.payload.None? {
        Unreadable(scope, journal, i);
        return;
      } else if SkippedByTenant(scope, e.payload.value) {
        skipped := skipped + 1;
      } else {
        rows, versions := InsertNext(rows, versions, KeptEvents(scope, journal[..i]), e);
      }
      i, read := i + 1, read + 1;
    }
    assert journal[..i] == journal;
  }

  lemma {:induction false} LastVersionsCount(rows: seq<MigratedEvent>, kept: seq<JournalEvent>, stream: string)
    requires Migrates(rows, kept)
    ensures CountOf(rows, stream) == if stream in LastVersions(rows) then LastVersions(rows)[stream] + 1 else 0
  {
    if rows != [] {
      LastVersionsCount(rows[..|rows| - 1], kept[..|rows| - 1], stream);
    }
  }

  lemma OneMoreRow(rows: seq<MigratedEvent>, kept: seq<JournalEvent>, e: JournalEvent, row: MigratedEvent)
    requires Migrates(rows, kept) && e.payload.Some?
    requires row == MigratedEvent(e.payload.value.stream, CountOf(rows, e.payload.value.stream), e.eventType,
                                  e.payload.value.data)
    ensures Migrates(rows + [row], kept + [e])
    ensures LastVersions(rows + [row]) == LastVersions(rows)[row.stream := row.version]
  {
    var rows1, kept1 := rows + [row], kept + [e];
    assert rows1[..|rows1| - 1] == rows && rows1[|rows1| - 1] == row;
    assert kept1[..|kept1| - 1] == kept && kept1[|kept1| - 1] == e;
  }

  /** The next version of the entry's stream, recorded and inserted. */
  method InsertNext(rows: seq<MigratedEvent>, versions: map<string, nat>, ghost kept: seq<JournalEvent>,
                    e: JournalEvent)
    returns (rows1: seq<MigratedEvent>, versions1: map<string, nat>)
    requires Migrates(rows, kept) && versions == LastVersions(rows) && e.payload.Some?
    ensures Migrates(rows1, kept + [e]) && versions1 == LastVersions(rows1) && |rows1| == |rows| + 1
  {
    var stream := e.payload.value.stream;
    var version := if stream in versions then versions[stream] + 1 else 0;
    versions1 := versions[stream := version];
    rows1 := rows + [MigratedEvent(stream, version, e.eventType, e.payload.value.data)];
    LastVersionsCount(rows, kept, stream);
    OneMoreRow(rows, kept, e, rows1[|rows|]);
  }

  /** The entry's type says that it is not migrated. */
  predicate Excluded(scope: Scope, e: JournalEvent) {
    e.eventType == Missing
    || (scope.isAuthorization
        && e.eventType in {EServiceStateUpdated, AgreementStateUpdated, PurposeStateUpdated,
                           AgreementAndEServiceStatesUpdated})
  }

  /** The entry belongs in the new store: its type is migrated, its payload decodes, and in the tenant
      journal its stream is one of a known tenant. */
  predicate Belongs(scope: Scope, e: JournalEvent) {
    !Excluded(scope, e) && e.payload.Some? && (scope.isTenant ==> e.payload.value.stream in scope.tenants)
  }

  lemma KeptOrNot(scope: Scope, e: JournalEvent)
    ensures Kept(scope, e) <==> Belongs(scope, e)
    ensures Readable(scope, e) <==> Excluded(scope, e) || e.payload.Some?
  {
  }

  /** The positions, in order, of the entries that belong. */
  predicate Positions(scope: Scope, journal: seq<JournalEvent>, at: seq<nat>) {
    && (forall i, k :: 0 <= i < k < |at| ==> at[i] < at[k])
    && (forall i :: 0 <= i < |at| ==> at[i] < |journal| && Belongs(scope, journal[at[i]]))
    && (forall n: nat :: n < |journal| && Belongs(scope, journal[n]) ==> n in at)
  }

  lemma NextPositions(scope: Scope, journal: seq<JournalEvent>, before: seq<nat>, at: seq<nat>)
    requires journal != [] && Positions(scope, journal[..|journal| - 1], before)
    requires at == if Belongs(scope, journal[|journal| - 1]) then before + [|journal| - 1] else before
    ensures Positions(scope, journal, at)
  {
    assert forall n :: 0 <= n < |journal| - 1 ==> journal[..|journal| - 1][n] == journal[n];
    forall n: nat | n < |journal| && Belongs(scope, journal[n]) ensures n in at {
      if n < |journal| - 1 {
        assert n in before;
      }
    }
  }

  /** What is kept are the entries that belong, all of them, in journal order. */
  lemma {:induction false} KeptExactly(scope: Scope, journal: seq<JournalEvent>) returns (at: seq<nat>)
    ensures Positions(scope, journal, at) && |at| == |KeptEvents(scope, journal)|
    ensures forall i :: 0 <= i < |at| ==> KeptEvents(scope, journal)[i] == journal[at[i]]
  {
    at := [];
    if journal != [] {
      var last := |journal| - 1;
      var before := KeptExactly(scope, journal[..last]);
      KeptOrNot(scope, journal[last]);
      at := if Belongs(scope, journal[last]) then before + [last] else before;
      NextPositions(scope, journal, before, at);
    }
  }

  lemma KeptNext(scope: Scope, journal: seq<JournalEvent>, i: nat)
    requires i < |journal|
    ensures KeptEvents(scope, journal[..i + 1])
            == if Kept(scope, journal[i]) then KeptEvents(scope, journal[..i]) + [journal[i]]
              else KeptEvents(scope, journal[..i])
  {
    assert journal[..i + 1][..i] == journal[..i];
  }

  /** Every stream ends with the versions 0, 1, 2, ... without gap or repeat, in journal order. */
  lemma {:induction false} StreamsAreNumbered(rows: seq<MigratedEvent>, kept: seq<JournalEvent>, stream: string, k: nat)
    requires Migrates(rows, kept) && k < |StreamOf(rows, stream)|
    ensures StreamOf(rows, stream)[k].version == k && |StreamOf(rows, stream)| == CountOf(rows, stream)
  {
    var before, last := rows[..|rows| - 1], |rows| - 1;
    StreamLength(before, stream);
    if k < |StreamOf(before, stream)| {
      StreamsAreNumbered(before, kept[..last], stream, k);
    }
  }

  lemma {:induction false} StreamLength(rows: seq<MigratedEvent>, stream: string)
    ensures |StreamOf(rows, stream)| == CountOf(rows, stream)
  {
    if rows != [] {
      StreamLength(rows[..|rows| - 1], stream);
    }
  }
}
