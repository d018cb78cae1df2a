/** The agreement row of one consumer and e-service under every interleaving of the streams of its
    agreements: when the agreement with the greatest timestamp wins, and when not. */
module AgreementConfluence {
  import opened Wrappers
  import opened Domain
  import opened Tables
  import opened Effects
  import opened RowEffects
  import opened AgreementWriter
  import opened Platform

  /** The messages of one agreement key, of whatever agreement, in the order of a run. */
  function StreamOf(k: AgreementKey, ms: seq<Message>): (r: seq<AgreementMessage>)
    ensures forall m :: m in r <==> OnAgreement(m) in ms && KeyOf(m.agreement) == k && !m.kind.OtherAgreementEvent?
  {
    if ms == [] then []
    else
      var before, m := StreamOf(k, ms[..|ms| - 1]), ms[|ms| - 1];
      assert forall x :: x in ms <==> x in ms[..|ms| - 1] || x == m;
      if m.OnAgreement? && KeyOf(m.agreementMessage.agreement) == k && !m.agreementMessage.kind.OtherAgreementEvent?
      then before + [m.agreementMessage] else before
  }

  /** The timestamp of an agreement: that of its upgrade, else of its activation, else of its making. */
  predicate DatedAt(a: Agreement, t: int) {
    && (a.stamps.upgrade.Some? ==> t == a.stamps.upgrade.value.when)
    && (a.stamps.upgrade.None? && a.stamps.activation.Some? ==> t == a.stamps.activation.value.when)
    && (a.stamps.upgrade.None? && a.stamps.activation.None? ==> t == a.createdAt)
  }

  /** An activation and an upgrade are dated by their own stamps. */
  predicate Dated(m: AgreementMessage, t: int) {
    match m.kind
    case AgreementActivation => m.agreement.stamps.activation.Some? && m.agreement.stamps.activation.value.when == t
    case AgreementUpgrade => m.agreement.stamps.upgrade.Some? && m.agreement.stamps.upgrade.value.when == t
    case _ => DatedAt(m.agreement, t)
  }

  predicate Upserts(m: AgreementMessage) {
    m.kind.AgreementActivation? || m.kind.AgreementUpgrade?
  }

  /** What holds of the agreements of one consumer and e-service: each has one timestamp, of its own,
      and one descriptor, and an upgrade is of a live agreement. */
  datatype Facts = Facts(timestamp: map<AgreementId, int>, descriptor: map<AgreementId, DescriptorId>)

  predicate Known(f: Facts, m: AgreementMessage) {
    var id := m.agreement.id;
    && id in f.timestamp && id in f.descriptor && Dated(m, f.timestamp[id])
    && m.agreement.descriptor == f.descriptor[id]
    && (m.kind.AgreementUpgrade? ==> m.agreement.state == Active || m.agreement.state == Suspended)
    && !m.kind.OtherAgreementEvent?
  }

  predicate AllKnown(f: Facts, ms: seq<AgreementMessage>) {
    forall k :: 0 <= k < |ms| ==> Known(f, ms[k])
  }

  predicate DistinctTimestamps(f: Facts) {
    forall a, b :: a in f.timestamp && b in f.timestamp && f.timestamp[a] == f.timestamp[b] ==> a == b
  }

  /** The versions of each agreement's messages do not go back. */
  predicate InOrder(ms: seq<AgreementMessage>) {
    forall i, k :: 0 <= i < k < |ms| && ms[i].agreement.id == ms[k].agreement.id ==> ms[i].version <= ms[k].version
  }

  /** The agreement's stream has an activation or upgrade.  That of an agreement that was suspended when
      it would have been activated for the first time has none. */
  predicate Raised(ms: seq<AgreementMessage>, id: AgreementId) {
    exists k :: 0 <= k < |ms| && ms[k].agreement.id == id && Upserts(ms[k])
  }

  /** The last message of the agreement with the greatest timestamp. */
  predicate Wins(f: Facts, ms: seq<AgreementMessage>, i: nat)
    requires AllKnown(f, ms)
  {
    && i < |ms|
    && forall k :: 0 <= k < |ms| ==>
         f.timestamp[ms[k].agreement.id] < f.timestamp[ms[i].agreement.id]
           || (ms[k].agreement.id == ms[i].agreement.id && k <= i)
  }

  function RowShown(f: Facts, m: AgreementMessage): AgreementRow
    requires Known(f, m)
  {
    AgreementRow(AgreementItemState(m.agreement.state), m.agreement.id, f.timestamp[m.agreement.id],
                 f.descriptor[m.agreement.id], m.version)
  }

  /** What a message of its key makes of the row `existing`: the effect of its plan. */
  function NextRow(existing: Option<AgreementRow>, m: AgreementMessage): Option<AgreementRow> {
    var k := KeyOf(m.agreement);
    match AgreementWriter.PlanOf(AgreementAlone(k, existing), m)
    case Ok(plan) => PlanOnAgreementRow(k, existing, plan)
    case Err(_) => existing
  }

  /** A plan reads no agreement row but that of its own key, and writes no other. */
  lemma PlanReadsItsOwnRow(s: Rows, m: AgreementMessage, k: AgreementKey)
    ensures match AgreementWriter.PlanOf(s, m)
            case Ok(plan) => PlanOnAgreementRow(k, Lookup(s.agreements, k), plan)
                             == if KeyOf(m.agreement) == k then NextRow(Lookup(s.agreements, k), m)
                               else Lookup(s.agreements, k)
            case Err(_) => KeyOf(m.agreement) == k ==> NextRow(Lookup(s.agreements, k), m) == Lookup(s.agreements, k)
  {
  }

  lemma HandlerWritesNextRow(s: Store, m: AgreementMessage, k: AgreementKey)
    ensures Lookup(Handle(s, OnAgreement(m)).rows.agreements, k)
            == if KeyOf(m.agreement) == k then NextRow(Lookup(s.rows.agreements, k), m)
              else Lookup(s.rows.agreements, k)
  {
    PlanReadsItsOwnRow(s.rows, m, k);
    PlannedRow(s, OnAgreement(m), k);
  }

  lemma PlannedRow(s: Store, m: Message, k: AgreementKey)
    ensures Lookup(Handle(s, m).rows.agreements, k)
            == match PlanFor(s.rows, m)
               case Ok(plan) => PlanOnAgreementRow(k, Lookup(s.rows.agreements, k), plan)
               case Err(_) => Lookup(s.rows.agreements, k)
  {
    var plan := PlanFor(s.rows, m);
    if plan.Ok? {
      RunOnRows(s, plan.value, PurposeId(""), k, DescriptorKey(k.eservice, DescriptorId("")));
    }
  }

  lemma OtherPlansSpareAgreements(s: Rows, m: Message, k: AgreementKey, row: Option<AgreementRow>)
    requires !m.OnAgreement? && PlanFor(s, m).Ok?
    ensures PlanOnAgreementRow(k, row, PlanFor(s, m).value) == row
  {
  }

  lemma OtherTopicsKeepAgreements(s: Store, m: Message, k: AgreementKey)
    requires !m.OnAgreement?
    ensures Lookup(Handle(s, m).rows.agreements, k) == Lookup(s.rows.agreements, k)
  {
    PlannedRow(s, m, k);
    if PlanFor(s.rows, m).Ok? {
      OtherPlansSpareAgreements(s.rows, m, k, Lookup(s.rows.agreements, k));
    }
  }

  function FinalRow(existing: Option<AgreementRow>, ms: seq<AgreementMessage>): Option<AgreementRow> {
    if ms == [] then existing else NextRow(FinalRow(existing, ms[..|ms| - 1]), ms[|ms| - 1])
  }

  lemma {:induction false} RunOfStream(s: Store, ms: seq<Message>, k: AgreementKey)
    ensures Lookup(RunFrom(s, ms).rows.agreements, k) == FinalRow(Lookup(s.rows.agreements, k), StreamOf(k, ms))
  {
    if ms != [] {
      var before, m := ms[..|ms| - 1], ms[|ms| - 1];
      RunOfStream(s, before, k);
      if m.OnAgreement? {
        HandlerWritesNextRow(RunFrom(s, before), m.agreementMessage, k);
      } else {
        OtherTopicsKeepAgreements(RunFrom(s, before), m, k);
      }
      if m.OnAgreement? && KeyOf(m.agreementMessage.agreement) == k && !m.agreementMessage.kind.OtherAgreementEvent? {
        var stream := StreamOf(k, ms);
        assert stream[..|stream| - 1] == StreamOf(k, before);
      }
    }
  }

  /* ---- the agreement with the greatest timestamp, once it is raised ---- */

  /** The row's own agreement and timestamp go together, and only an activation or upgrade brings an
      agreement into the row. */
  predicate RowSane(f: Facts, ms: seq<AgreementMessage>, row: Option<AgreementRow>) {
    row.Some? ==>
      var id := row.value.agreementId;
      id in f.timestamp && row.value.timestamp == f.timestamp[id] && Raised(ms, id)
  }

  lemma NextRowSane(f: Facts, row: Option<AgreementRow>, m: AgreementMessage)
    requires Known(f, m)
    requires row.Some? ==>
               row.value.agreementId in f.timestamp
               && row.value.timestamp == f.timestamp[row.value.agreementId]
    ensures var next := NextRow(row, m);
            next.Some? ==>
              var id := next.value.agreementId;
              && id in f.timestamp && next.value.timestamp == f.timestamp[id]
              && ((row.Some? && id == row.value.agreementId) || (id == m.agreement.id && Upserts(m)))
  {
  }

  lemma {:induction false} FinalRowSane(f: Facts, ms: seq<AgreementMessage>)
    requires AllKnown(f, ms)
    ensures RowSane(f, ms, FinalRow(None, ms))
  {
    if ms != [] {
      var before, last := ms[..|ms| - 1], |ms| - 1;
      assert forall k :: 0 <= k < last ==> before[k] == ms[k];
      FinalRowSane(f, before);
      NextRowSane(f, FinalRow(None, before), ms[last]);
      if FinalRow(None, ms).Some? && FinalRow(None, ms).value.agreementId != ms[last].agreement.id {
        var k :| 0 <= k < last && before[k].agreement.id == FinalRow(None, ms).value.agreementId && Upserts(before[k]);
        assert ms[k].agreement.id == FinalRow(None, ms).value.agreementId && Upserts(ms[k]);
      }
    }
  }

  /** An activation or upgrade takes over the row of any agreement with a lesser timestamp. */
  lemma RaiseTakesOver(f: Facts, row: Option<AgreementRow>, m: AgreementMessage)
    requires Known(f, m) && Upserts(m)
    requires row.Some? ==> row.value.agreementId != m.agreement.id && row.value.timestamp < f.timestamp[m.agreement.id]
    ensures NextRow(row, m) == Some(RowShown(f, m))
  {
  }

  /** A message against the row of the agreement `v`, as a message before it left it. */
  lemma RowContest(f: Facts, v: AgreementMessage, m: AgreementMessage)
    requires Known(f, v) && Known(f, m)
    requires m.agreement.id == v.agreement.id ==> v.version <= m.version
    requires m.agreement.id != v.agreement.id ==> f.timestamp[m.agreement.id] < f.timestamp[v.agreement.id]
    ensures NextRow(Some(RowShown(f, v)), m) == Some(RowShown(f, if m.agreement.id == v.agreement.id then m else v))
  {
  }

  /** The messages but the last. */
  lemma InitPart(f: Facts, ms: seq<AgreementMessage>, id: AgreementId)
    requires ms != [] && AllKnown(f, ms) && InOrder(ms) && id in f.timestamp
    requires forall k :: 0 <= k < |ms| && ms[k].agreement.id != id ==> f.timestamp[ms[k].agreement.id] < f.timestamp[id]
    ensures var before := ms[..|ms| - 1];
            && AllKnown(f, before) && InOrder(before)
            && forall k :: 0 <= k < |before| && before[k].agreement.id != id ==>
                 f.timestamp[before[k].agreement.id] < f.timestamp[id]
  {
    assert forall k :: 0 <= k < |ms| - 1 ==> ms[..|ms| - 1][k] == ms[k];
  }

  /** While the agreement `id` has the greatest timestamp: once it is raised, the row is that of its last
      message. */
  lemma {:induction false} RaisedRow(f: Facts, ms: seq<AgreementMessage>, id: AgreementId) returns (v: nat)
    requires AllKnown(f, ms) && InOrder(ms) && id in f.timestamp && Raised(ms, id)
    requires forall k :: 0 <= k < |ms| && ms[k].agreement.id != id ==> f.timestamp[ms[k].agreement.id] < f.timestamp[id]
    ensures v < |ms| && ms[v].agreement.id == id && forall k :: v < k < |ms| ==> ms[k].agreement.id != id
    ensures FinalRow(None, ms) == Some(RowShown(f, ms[v]))
  {
    var before, last := ms[..|ms| - 1], |ms| - 1;
    InitPart(f, ms, id);
    if Raised(before, id) {
      v := RaisedRow(f, before, id);
      StaysRaised(f, ms, id, v);
      if ms[last].agreement.id == id {
        v := last;
      }
    } else {
      v := LastRaises(ms, id);
      RisesNow(f, ms, before, id);
    }
  }

  lemma RisesNow(f: Facts, ms: seq<AgreementMessage>, before: seq<AgreementMessage>, id: AgreementId)
    requires ms != [] && AllKnown(f, ms) && ms[|ms| - 1].agreement.id == id && Upserts(ms[|ms| - 1])
    requires before == ms[..|ms| - 1] && !Raised(before, id) && AllKnown(f, before)
    requires forall k :: 0 <= k < |before| && before[k].agreement.id != id ==>
               f.timestamp[before[k].agreement.id] < f.timestamp[id]
    ensures FinalRow(None, ms) == Some(RowShown(f, ms[|ms| - 1]))
  {
    FinalRowSane(f, before);
    RisingRow(f, before, id, ms[|ms| - 1]);
  }

  lemma StaysRaised(f: Facts, ms: seq<AgreementMessage>, id: AgreementId, v: nat)
    requires AllKnown(f, ms) && InOrder(ms) && v < |ms| - 1 && ms[v].agreement.id == id
    requires var m := ms[|ms| - 1]; m.agreement.id != id ==> f.timestamp[m.agreement.id] < f.timestamp[id]
    requires FinalRow(None, ms[..|ms| - 1]) == Some(RowShown(f, ms[v]))
    ensures FinalRow(None, ms)
            == Some(RowShown(f, if ms[|ms| - 1].agreement.id == id then ms[|ms| - 1] else ms[v]))
  {
    RowContest(f, ms[v], ms[|ms| - 1]);
  }

  lemma LastRaises(ms: seq<AgreementMessage>, id: AgreementId) returns (v: nat)
    requires Raised(ms, id) && !Raised(ms[..|ms| - 1], id)
    ensures v == |ms| - 1 && ms[v].agreement.id == id && Upserts(ms[v])
  {
    v := |ms| - 1;
    assert forall k :: 0 <= k < v ==> ms[..v][k] == ms[k];
  }

  lemma RisingRow(f: Facts, before: seq<AgreementMessage>, id: AgreementId, m: AgreementMessage)
    requires AllKnown(f, before) && Known(f, m) && m.agreement.id == id && Upserts(m) && !Raised(before, id)
    requires forall k :: 0 <= k < |before| && before[k].agreement.id != id ==>
               f.timestamp[before[k].agreement.id] < f.timestamp[id]
    requires RowSane(f, before, FinalRow(None, before))
    ensures NextRow(FinalRow(None, before), m) == Some(RowShown(f, m))
  {
    var row := FinalRow(None, before);
    if row.Some? {
      var k :| 0 <= k < |before| && before[k].agreement.id == row.value.agreementId && Upserts(before[k]);
    }
    RaiseTakesOver(f, row, m);
  }

  /** The row left by in-order streams, in whatever interleaving, is that of the last message of the
      agreement with the greatest timestamp if and only if that agreement was activated or upgraded. */
  lemma GreatestTimestampWins(f: Facts, ms: seq<AgreementMessage>, i: nat)
    requires AllKnown(f, ms) && DistinctTimestamps(f) && InOrder(ms) && Wins(f, ms, i)
    ensures FinalRow(None, ms) == Some(RowShown(f, ms[i])) <==> Raised(ms, ms[i].agreement.id)
  {
    if Raised(ms, ms[i].agreement.id) {
      var _ := RaisedRow(f, ms, ms[i].agreement.id);
    } else {
      FinalRowSane(f, ms);
    }
  }

  lemma {:induction false} WinnerExists(f: Facts, ms: seq<AgreementMessage>) returns (i: nat)
    requires AllKnown(f, ms) && DistinctTimestamps(f) && ms != []
    ensures Wins(f, ms, i)
  {
    var before, last := ms[..|ms| - 1], |ms| - 1;
    assert forall k :: 0 <= k < last ==> before[k] == ms[k];
    i := last;
    if before != [] {
      var v := WinnerExists(f, before);
      if f.timestamp[ms[last].agreement.id] < f.timestamp[ms[v].agreement.id] {
        i := v;
      }
    }
  }

  function Only(id: AgreementId, ms: seq<AgreementMessage>): seq<AgreementMessage> {
    if ms == [] then [] else Only(id, ms[..|ms| - 1]) + if ms[|ms| - 1].agreement.id == id then [ms[|ms| - 1]] else []
  }

  lemma {:induction false} OnlyExactly(id: AgreementId, ms: seq<AgreementMessage>, m: AgreementMessage)
    ensures m in Only(id, ms) <==> m in ms && m.agreement.id == id
  {
    if ms != [] {
      OnlyExactly(id, ms[..|ms| - 1], m);
      assert forall x :: x in ms <==> x in ms[..|ms| - 1] || x == ms[|ms| - 1];
    }
  }

  lemma {:induction false} WinnerIsLastOfIts(f: Facts, ms: seq<AgreementMessage>, i: nat)
    requires AllKnown(f, ms) && Wins(f, ms, i)
    ensures var own := Only(ms[i].agreement.id, ms); |own| > 0 && own[|own| - 1] == ms[i]
  {
    if i < |ms| - 1 {
      var before := ms[..|ms| - 1];
      assert forall k :: 0 <= k < |before| ==> before[k] == ms[k];
      WinnerIsLastOfIts(f, before, i);
    }
  }

  /** Two interleavings of the same streams. */
  ghost predicate SameStreams(ms1: seq<AgreementMessage>, ms2: seq<AgreementMessage>) {
    forall id :: Only(id, ms1) == Only(id, ms2)
  }

  lemma SharedMessage(ms1: seq<AgreementMessage>, ms2: seq<AgreementMessage>, i: nat) returns (k: nat)
    requires SameStreams(ms1, ms2) && i < |ms1|
    ensures k < |ms2| && ms2[k] == ms1[i]
  {
    var id := ms1[i].agreement.id;
    assert Only(id, ms1) == Only(id, ms2);
    OnlyExactly(id, ms1, ms1[i]);
    OnlyExactly(id, ms2, ms1[i]);
    k :| 0 <= k < |ms2| && ms2[k] == ms1[i];
  }

  lemma NoStreamWithoutMessages(ms1: seq<AgreementMessage>, ms2: seq<AgreementMessage>)
    requires SameStreams(ms1, ms2) && ms1 == []
    ensures ms2 == []
  {
    if ms2 != [] {
      var _ := SharedMessage(ms2, ms1, 0);
    }
  }

  lemma SameWinner(f: Facts, ms1: seq<AgreementMessage>, i1: nat, l: nat, ms2: seq<AgreementMessage>, i2: nat, k: nat)
    requires AllKnown(f, ms1) && AllKnown(f, ms2) && DistinctTimestamps(f) && Wins(f, ms1, i1) && Wins(f, ms2, i2)
    requires l < |ms1| && ms1[l] == ms2[i2] && k < |ms2| && ms2[k] == ms1[i1]
    ensures ms1[i1].agreement.id == ms2[i2].agreement.id
  {
    assert f.timestamp[ms2[k].agreement.id] == f.timestamp[ms1[l].agreement.id];
  }

  lemma WinnersAgree(f: Facts, ms1: seq<AgreementMessage>, i1: nat, ms2: seq<AgreementMessage>, i2: nat)
    requires AllKnown(f, ms1) && AllKnown(f, ms2) && Wins(f, ms1, i1) && Wins(f, ms2, i2)
    requires ms1[i1].agreement.id == ms2[i2].agreement.id
    requires Only(ms1[i1].agreement.id, ms1) == Only(ms1[i1].agreement.id, ms2)
    ensures ms1[i1] == ms2[i2]
  {
    WinnerIsLastOfIts(f, ms1, i1);
    WinnerIsLastOfIts(f, ms2, i2);
  }

  lemma RaisedInBoth(ms1: seq<AgreementMessage>, ms2: seq<AgreementMessage>, id: AgreementId)
    requires SameStreams(ms1, ms2) && Raised(ms1, id)
    ensures Raised(ms2, id)
  {
    var k :| 0 <= k < |ms1| && ms1[k].agreement.id == id && Upserts(ms1[k]);
    var l := SharedMessage(ms1, ms2, k);
  }

  /** Confluence over whole platform runs: if two runs deliver the same streams of the agreements of
      `k`, each in order, and the agreement with the greatest timestamp was activated or upgraded, then
      whatever the interleaving, and whatever else they deliver in between, the row of `k` ends the same. */
  lemma Confluence(f: Facts, k: AgreementKey, s1: Store, ms1: seq<Message>, s2: Store, ms2: seq<Message>)
    requires k !in s1.rows.agreements && k !in s2.rows.agreements
    requires AllKnown(f, StreamOf(k, ms1)) && AllKnown(f, StreamOf(k, ms2)) && DistinctTimestamps(f)
    requires InOrder(StreamOf(k, ms1)) && InOrder(StreamOf(k, ms2)) && SameStreams(StreamOf(k, ms1), StreamOf(k, ms2))
    requires forall i: nat :: Wins(f, StreamOf(k, ms1), i) ==>
               Raised(StreamOf(k, ms1), StreamOf(k, ms1)[i].agreement.id)
    ensures Lookup(RunFrom(s1, ms1).rows.agreements, k) == Lookup(RunFrom(s2, ms2).rows.agreements, k)
  {
    var t1, t2 := StreamOf(k, ms1), StreamOf(k, ms2);
    RunOfStream(s1, ms1, k);
    RunOfStream(s2, ms2, k);
    if t1 == [] {
      NoStreamWithoutMessages(t1, t2);
    } else if t2 == [] {
      NoStreamWithoutMessages(t2, t1);
    } else {
      var i1 := WinnerExists(f, t1);
      var i2 := WinnerExists(f, t2);
      var k2 := SharedMessage(t1, t2, i1);
      var k1 := SharedMessage(t2, t1, i2);
      SameWinner(f, t1, i1, k1, t2, i2, k2);
      WinnersAgree(f, t1, i1, t2, i2);
      RaisedInBoth(t1, t2, t1[i1].agreement.id);
      GreatestTimestampWins(f, t1, i1);
      GreatestTimestampWins(f, t2, i2);
    }
  }

  /* ---- and while it is not raised ---- */

  /** The agreement `a`, active since `since` and archived at last, and `b`, made later and suspended from
      the outset, for the same consumer and e-service: `b` is unsuspended and never activated. */
  datatype Pair = Pair(a: Agreement, b: Agreement, since: int, version: int)

  predicate Unraised(p: Pair) {
    && KeyOf(p.a) == KeyOf(p.b) && p.a.id != p.b.id && p.a.descriptor != p.b.descriptor
    && p.a.stamps.upgrade.None? && p.a.stamps.activation.Some? && p.a.stamps.activation.value.when == p.since
    && p.b.stamps.upgrade.None? && p.b.stamps.activation.None? && p.since < p.b.createdAt
  }

  function Activated(p: Pair): AgreementMessage {
    AgreementMessage(AgreementActivation, p.a.(state := Active), p.version)
  }

  /** `b` as its parties unsuspend it, one after the other. */
  function HalfUnsuspended(p: Pair): AgreementMessage {
    AgreementMessage(SuspensionChange, p.b.(state := Suspended), p.version)
  }

  function Unsuspended(p: Pair): AgreementMessage {
    AgreementMessage(SuspensionChange, p.b.(state := Active), p.version + 1)
  }

  function FactsOf(p: Pair): Facts {
    Facts(map[p.a.id := p.since, p.b.id := p.b.createdAt], map[p.a.id := p.a.descriptor, p.b.id := p.b.descriptor])
  }

  /** What goes wrong then.  Two interleavings of the same two messages leave different rows; and a later
      message of `b` makes the row of `a` ACTIVE, which shows `a`'s id and descriptor still. */
  lemma UnraisedDefeatsConfluence(p: Pair)
    requires Unraised(p)
    ensures var f, early, late := FactsOf(p), [Activated(p), HalfUnsuspended(p)], [HalfUnsuspended(p), Activated(p)];
            && AllKnown(f, early) && AllKnown(f, late) && DistinctTimestamps(f) && InOrder(early) && InOrder(late)
            && Wins(f, early, 1) && Wins(f, late, 0) && !Raised(early, p.b.id)
            && FinalRow(None, early) == Some(AgreementRow(INACTIVE, p.a.id, p.since, p.a.descriptor, p.version))
            && FinalRow(None, late) == Some(AgreementRow(ACTIVE, p.a.id, p.since, p.a.descriptor, p.version))
    ensures FinalRow(None, [Activated(p), HalfUnsuspended(p), Unsuspended(p)])
            == Some(AgreementRow(ACTIVE, p.a.id, p.since, p.a.descriptor, p.version + 1))
  {
    var a, h, u := Activated(p), HalfUnsuspended(p), Unsuspended(p);
    TwoMessages(a, h);
    TwoMessages(h, a);
    assert [a, h, u][..2] == [a, h];
    OwnActivation(p);
    Borrowed(p, p.version, ACTIVE, h);
    Borrowed(p, p.version, INACTIVE, u);
    assert NextRow(None, h) == None;
  }

  lemma TwoMessages(m: AgreementMessage, n: AgreementMessage)
    ensures FinalRow(None, [m, n]) == NextRow(NextRow(None, m), n)
  {
    assert [m, n][..1] == [m] && [m][..0] == [];
    assert FinalRow(None, [m]) == NextRow(FinalRow(None, [m][..0]), m);
  }

  lemma OwnActivation(p: Pair)
    requires Unraised(p)
    ensures NextRow(None, Activated(p)) == Some(AgreementRow(ACTIVE, p.a.id, p.since, p.a.descriptor, p.version))
  {
  }

  /** A later agreement that was never activated changes the state of the row that it finds. */
  lemma Borrowed(p: Pair, version: int, state: ItemState, m: AgreementMessage)
    requires Unraised(p) && m.kind.SuspensionChange? && m.agreement == p.b.(state := m.agreement.state)
    ensures NextRow(Some(AgreementRow(state, p.a.id, p.since, p.a.descriptor, version)), m)
            == Some(AgreementRow(AgreementItemState(m.agreement.state), p.a.id, p.since, p.a.descriptor, m.version))
  {
  }
}
