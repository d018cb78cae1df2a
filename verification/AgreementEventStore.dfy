/** The agreement event store, one numbered stream per agreement, and the read model that the V2
    read-model writer folds out of it. */
module AgreementEventStore {
  import opened Wrappers
  import opened Domain

  datatype EventName =
    | AgreementAdded
    | AgreementSubmitted
    | AgreementActivated
    | AgreementUpgraded
    | AgreementRejected
    | AgreementDeleted
    | AgreementArchivedByConsumer
    | AgreementArchivedByUpgrade
    | SuspendedByConsumer
    | SuspendedByProducer
    | SuspendedByPlatform
    | UnsuspendedByConsumer
    | UnsuspendedByProducer
    | UnsuspendedByPlatform
    | SetDraftByPlatform
    | SetMissingCertifiedAttributesByPlatform

  /** An event to be stored; `version` is that of the stream as the service read it, none for a new one. */
  datatype NewEvent = NewEvent(name: EventName, agreement: Agreement, version: Option<nat>)

  datatype Row = Row(stream: AgreementId, version: nat, name: EventName, agreement: Agreement)

  /* ---- the event table ---- */

  predicate Has(rows: seq<Row>, stream: AgreementId, version: nat) {
    exists k :: 0 <= k < |rows| && rows[k].stream == stream && rows[k].version == version
  }

  /** The version check, then the insertion under the unique constraint on stream and version. */
  function Insert(rows: seq<Row>, e: NewEvent): Option<seq<Row>> {
    var stream := e.agreement.id;
    if e.version.Some? && !Has(rows, stream, e.version.value) then None
    else
      var version := if e.version.None? then 0 else e.version.value + 1;
      if Has(rows, stream, version) then None else Some(rows + [Row(stream, version, e.name, e.agreement)])
  }

  function InsertAll(rows: seq<Row>, events: seq<NewEvent>): Option<seq<Row>> {
    if events == [] then Some(rows)
    else
      match InsertAll(rows, events[..|events| - 1])
      case None => None
      case Some(before) => Insert(before, events[|events| - 1])
  }

  function CountOf(rows: seq<Row>, stream: AgreementId): nat {
    if rows == [] then 0 else CountOf(rows[..|rows| - 1], stream) + if rows[|rows| - 1].stream == stream then 1 else 0
  }

  /** Every stream is numbered 0, 1, 2, ... in the order of the table. */
  predicate Numbered(rows: seq<Row>) {
    rows == [] ||
    (var row := rows[|rows| - 1];
     Numbered(rows[..|rows| - 1]) && row.version == CountOf(rows[..|rows| - 1], row.stream)
       && row.agreement.id == row.stream)
  }

  lemma {:induction false} NumberedVersions(rows: seq<Row>, stream: AgreementId, version: nat)
    requires Numbered(rows)
    ensures Has(rows, stream, version) <==> version < CountOf(rows, stream)
  {
    if rows != [] {
      var before, last := rows[..|rows| - 1], |rows| - 1;
      NumberedVersions(before, stream, version);
      assert forall k :: 0 <= k < last ==> rows[k] == before[k];
      assert Has(before, stream, version) ==> Has(rows, stream, version);
      if Has(rows, stream, version) && !Has(before, stream, version) {
        assert rows[last].stream == stream && rows[last].version == version;
      }
    }
  }

  /** The optimistic lock: an event is stored exactly when the service read the stream's last version,
      and the numbering goes on without gap or repeat. */
  lemma InsertIsExact(rows: seq<Row>, e: NewEvent)
    requires Numbered(rows)
    ensures var n := CountOf(rows, e.agreement.id);
            && (Insert(rows, e).Some? <==> e.version == if n == 0 then None else Some(n - 1))
            && (Insert(rows, e).Some? ==>
                  Numbered(Insert(rows, e).value)
                    && Insert(rows, e).value == rows + [Row(e.agreement.id, n, e.name, e.agreement)])
  {
    var n := CountOf(rows, e.agreement.id);
    NumberedVersions(rows, e.agreement.id, 0);
    if e.version.Some? {
      NumberedVersions(rows, e.agreement.id, e.version.value);
      NumberedVersions(rows, e.agreement.id, e.version.value + 1);
    }
    var longer := rows + [Row(e.agreement.id, n, e.name, e.agreement)];
    assert longer[..|longer| - 1] == rows;
  }

  class EventStore {
    var rows: seq<Row>

    constructor ()
      ensures rows == []
    {
      rows := [];
    }

    /** All events in one transaction: a failing one undoes those before it. */
    method CreateEvents(events: seq<NewEvent>) returns (ok: bool)
      modifies this
      ensures ok <==> InsertAll(old(rows), events).Some?
      ensures rows == if ok then InsertAll(old(rows), events).value else old(rows)
    {
      var before, i := rows, 0;
      while i < |events|
        invariant 0 <= i <= |events| && InsertAll(before, events[..i]) == Some(rows)
      {
        assert events[..i + 1][..i] == events[..i];
        var inserted := Insert(rows, events[i]);
        if inserted.None? {
          rows := before;
          FailedPrefix(before, events, i + 1);
          return false;
        }
        rows := inserted.value;
        i := i + 1;
      }
      assert events[..i] == events;
      return true;
    }
  }

  lemma {:induction false} FailedPrefix(rows: seq<Row>, events: seq<NewEvent>, i: nat)
    requires i <= |events| && InsertAll(rows, events[..i]).None?
    decreases |events|
    ensures InsertAll(rows, events).None?
  {
    if i == |events| {
      assert events[..i] == events;
    } else {
      assert events[..|events| - 1][..i] == events[..i];
      FailedPrefix(rows, events[..|events| - 1], i);
    }
  }

  /* ---- the read model ---- */

  datatype Document = Document(agreement: Agreement, version: nat)

  type Book = map<AgreementId, Document>

  /** One message: delete, or replace the whole document, unless a later version is stored. */
  function Handle(book: Book, row: Row): Book {
    if row.stream in book && book[row.stream].version > row.version then book
    else if row.name == AgreementDeleted then book - {row.stream}
    else book[row.stream := Document(row.agreement, row.version)]
  }

  function ReadModel(rows: seq<Row>): Book {
    if rows == [] then map[] else Handle(ReadModel(rows[..|rows| - 1]), rows[|rows| - 1])
  }

  /** What events that fit the streams make of the read model. */
  function Changed(book: Book, e: NewEvent): Book {
    if e.name == AgreementDeleted then book - {e.agreement.id}
    else book[e.agreement.id := Document(e.agreement, if e.version.None? then 0 else e.version.value + 1)]
  }

  function ChangedAll(book: Book, events: seq<NewEvent>): Book {
    if events == [] then book else Changed(ChangedAll(book, events[..|events| - 1]), events[|events| - 1])
  }

  /** Every document is of the last version of its stream, and a stream without document is new or
      ended with its deletion. */
  lemma {:induction false} ReadModelIsLatest(rows: seq<Row>, id: AgreementId)
    requires Numbered(rows)
    ensures var book := ReadModel(rows);
            id in book ==> book[id].version + 1 == CountOf(rows, id) && book[id].agreement.id == id
  {
    if rows != [] {
      ReadModelIsLatest(rows[..|rows| - 1], id);
    }
  }

  lemma ChangedByInsertion(rows: seq<Row>, e: NewEvent)
    requires Numbered(rows) && Insert(rows, e).Some?
    ensures Numbered(Insert(rows, e).value) && ReadModel(Insert(rows, e).value) == Changed(ReadModel(rows), e)
  {
    InsertIsExact(rows, e);
    ReadModelIsLatest(rows, e.agreement.id);
    var longer := Insert(rows, e).value;
    assert longer[..|longer| - 1] == rows;
  }

  lemma {:induction false} ChangedByTransaction(rows: seq<Row>, events: seq<NewEvent>)
    requires Numbered(rows) && InsertAll(rows, events).Some?
    ensures Numbered(InsertAll(rows, events).value)
            && ReadModel(InsertAll(rows, events).value) == ChangedAll(ReadModel(rows), events)
  {
    if events != [] {
      ChangedByTransaction(rows, events[..|events| - 1]);
      ChangedByInsertion(InsertAll(rows, events[..|events| - 1]).value, events[|events| - 1]);
    }
  }

  /* ---- transactions that fit ---- */

  lemma {:induction false} InsertTogether(rows: seq<Row>, first: seq<NewEvent>, second: seq<NewEvent>)
    requires InsertAll(rows, first).Some?
    ensures InsertAll(rows, first + second) == InsertAll(InsertAll(rows, first).value, second)
  {
    var all := first + second;
    if second == [] {
      assert all == first;
    } else {
      assert all[..|all| - 1] == first + second[..|second| - 1];
      InsertTogether(rows, first, second[..|second| - 1]);
    }
  }

  lemma CountAfterInsert(rows: seq<Row>, e: NewEvent, id: AgreementId)
    requires Numbered(rows) && Insert(rows, e).Some?
    ensures CountOf(Insert(rows, e).value, id) == CountOf(rows, id) + if id == e.agreement.id then 1 else 0
  {
    InsertIsExact(rows, e);
    var longer := Insert(rows, e).value;
    assert longer[..|longer| - 1] == rows;
  }

  /** Each event has its stream's last version and a stream of its own. */
  predicate UpToDate(rows: seq<Row>, events: seq<NewEvent>) {
    && (forall k :: 0 <= k < |events| ==>
          CountOf(rows, events[k].agreement.id) > 0
            && events[k].version == Some(CountOf(rows, events[k].agreement.id) - 1))
    && (forall i, k :: 0 <= i < k < |events| ==> events[i].agreement.id != events[k].agreement.id)
  }

  lemma UpToDatePrefix(rows: seq<Row>, events: seq<NewEvent>)
    requires UpToDate(rows, events) && events != []
    ensures UpToDate(rows, events[..|events| - 1])
  {
    var before := events[..|events| - 1];
    assert forall k :: 0 <= k < |before| ==> before[k] == events[k];
  }

  predicate NoEventFor(events: seq<NewEvent>, id: AgreementId) {
    forall k :: 0 <= k < |events| ==> events[k].agreement.id != id
  }

  /** Such events are stored, and no other stream grows. */
  lemma {:induction false} UpToDateEventsGrow(rows: seq<Row>, events: seq<NewEvent>, id: AgreementId)
    requires Numbered(rows) && UpToDate(rows, events)
    ensures InsertAll(rows, events).Some? && Numbered(InsertAll(rows, events).value)
    ensures NoEventFor(events, id) ==> CountOf(InsertAll(rows, events).value, id) == CountOf(rows, id)
  {
    if events != [] {
      var before, e := events[..|events| - 1], events[|events| - 1];
      UpToDatePrefix(rows, events);
      UpToDateEventsGrow(rows, before, id);
      UpToDateEventsGrow(rows, before, e.agreement.id);
      var more := InsertAll(rows, before).value;
      assert NoEventFor(before, e.agreement.id);
      InsertIsExact(more, e);
      if NoEventFor(events, id) {
        CountAfterInsert(more, e, id);
      }
    }
  }

  /** All of them are stored. */
  lemma UpToDateEventsAreStored(rows: seq<Row>, events: seq<NewEvent>)
    requires Numbered(rows) && UpToDate(rows, events)
    ensures InsertAll(rows, events).Some?
  {
    if events != [] {
      UpToDateEventsGrow(rows, events, events[0].agreement.id);
    }
  }
}
