/** What the second retrieval does not answer for: runs, for each condition of the race closure, that
    end with every call made and an entry that disagrees with a row. */
module SecondRetrievalLimits {
  import opened Wrappers
  import opened Domain
  import opened Tables
  import opened AuthorizationWriter
  import opened SecondRetrieval

  /* ---- runs, put together ---- */

  lemma {:induction false} ExecThen(w: World, s: State, actions: seq<Action>, a: Action)
    requires Valid(w, s, actions) && Enabled(w, Exec(w, s, actions), a)
    decreases |actions|
    ensures Valid(w, s, actions + [a]) && Exec(w, s, actions + [a]) == Step(w, Exec(w, s, actions), a)
  {
    var longer := actions + [a];
    if actions == [] {
      assert longer == [a] && longer[1..] == [];
    } else {
      assert longer[0] == actions[0] && longer[1..] == actions[1..] + [a];
      ExecThen(w, Step(w, s, actions[0]), actions[1..], a);
    }
  }

  ghost predicate Reaches(w: World, s: State, t: State) {
    exists actions :: Valid(w, s, actions) && Exec(w, s, actions) == t
  }

  lemma ReachesItself(w: World, s: State)
    ensures Reaches(w, s, s)
  {
    assert Valid(w, s, []) && Exec(w, s, []) == s;
  }

  lemma ReachNext(w: World, s: State, t: State, a: Action)
    requires Reaches(w, s, t) && Enabled(w, t, a)
    ensures Reaches(w, s, Step(w, t, a))
  {
    var actions :| Valid(w, s, actions) && Exec(w, s, actions) == t;
    ExecThen(w, s, actions, a);
  }

  /** Nothing under way, and nothing marked. */
  function Still(rows: Rows, tokens: Tokens): State {
    State(rows, tokens, map[], map[], NO_MARKS)
  }

  /** The join with its first retrieval done. */
  function FirstRead(w: World, rows: Rows, pk: TokenKey, pem: string): Join
    requires pk.ClientKidPurpose?
  {
    NewJoin(w.home(pk.purpose).consumer, pem).(step := 3, first := Retrieve(rows, pk.purpose))
  }

  lemma OneCall(w: World, s: State, t: State, pk: TokenKey, j: Join)
    requires Reaches(w, s, t) && pk.ClientKidPurpose? && t.joins == map[pk := j] && InProgress(j)
    ensures Reaches(w, s, t.(joins := map[pk := NextJoin(t.rows, pk.purpose, j)],
                             tokens := WithEntry(t.tokens, pk, NextEntry(j, Lookup(t.tokens, pk))),
                             marks := MarksAfterCall(t.marks, pk, j)))
  {
    ReachNext(w, s, t, Advance(pk));
    assert t.joins[pk := NextJoin(t.rows, pk.purpose, j)] == map[pk := NextJoin(t.rows, pk.purpose, j)];
  }

  /** A call that only reads. */
  lemma OneRead(w: World, s: State, t: State, pk: TokenKey, j: Join)
    requires Reaches(w, s, t) && pk.ClientKidPurpose? && t.joins == map[pk := j] && j.step < 7 && j.step != 3
    ensures Reaches(w, s, t.(joins := map[pk := NextJoin(t.rows, pk.purpose, j)]))
  {
    OneCall(w, s, t, pk, j);
    assert WithEntry(t.tokens, pk, Lookup(t.tokens, pk)) == t.tokens;
  }

  lemma ThreeReads(w: World, s: State, t: State, pk: TokenKey, j: Join)
    requires Reaches(w, s, t) && pk.ClientKidPurpose? && t.joins == map[pk := j] && (j.step == 0 || j.step == 4)
    ensures var p := pk.purpose;
            Reaches(w, s, t.(joins := map[pk := NextJoin(t.rows, p, NextJoin(t.rows, p, NextJoin(t.rows, p, j)))]))
  {
    var p := pk.purpose;
    var j1 := NextJoin(t.rows, p, j);
    var j2 := NextJoin(t.rows, p, j1);
    OneRead(w, s, t, pk, j);
    OneRead(w, s, t.(joins := map[pk := j1]), pk, j1);
    OneRead(w, s, t.(joins := map[pk := j2]), pk, j2);
  }

  lemma FirstRetrieval(w: World, s: State, t: State, pk: TokenKey, pem: string)
    requires Reaches(w, s, t) && pk.ClientKidPurpose? && t.joins == map[]
    ensures Reaches(w, s, t.(joins := map[pk := FirstRead(w, t.rows, pk, pem)]))
  {
    var j := NewJoin(w.home(pk.purpose).consumer, pem);
    ReachNext(w, s, t, Begin(pk, pem));
    assert t.joins[pk := j] == map[pk := j];
    ThreeReads(w, s, t.(joins := map[pk := j]), pk, j);
  }

  lemma Put(w: World, s: State, t: State, pk: TokenKey, j: Join) returns (t1: State)
    requires Reaches(w, s, t) && pk.ClientKidPurpose? && t.joins == map[pk := j] && j.step == 3
    requires t.tokens.Keys <= {pk}
    ensures Reaches(w, s, t1) && t1.rows == t.rows && t1.walks == t.walks && t1.joins == map[pk := j.(step := 4)]
    ensures t1.tokens == map[pk := Stored(NewEntry(j.consumer, j.pem, j.first))]
  {
    OneCall(w, s, t, pk, j);
    var put := Stored(NewEntry(j.consumer, j.pem, j.first));
    assert t.tokens[pk := put] == map[pk := put];
    t1 := t.(joins := map[pk := j.(step := 4)], tokens := map[pk := put], marks := Without(t.marks, pk));
  }

  lemma SecondRetrieve(w: World, s: State, t: State, pk: TokenKey, j: Join)
    requires Reaches(w, s, t) && pk.ClientKidPurpose? && t.joins == map[pk := j]
    requires j.step == 4 && j.second == NOTHING_READ
    ensures Reaches(w, s, t.(joins := map[pk := j.(step := 7, second := Retrieve(t.rows, pk.purpose))]))
  {
    ThreeReads(w, s, t, pk, j);
    SecondReads(t.rows, pk.purpose, j);
  }

  /** The put, and the second retrieval. */
  lemma PutAndRetrieve(w: World, s: State, t: State, pk: TokenKey, j: Join) returns (t1: State)
    requires Reaches(w, s, t) && pk.ClientKidPurpose? && t.joins == map[pk := j]
    requires j.step == 3 && j.second == NOTHING_READ && t.tokens.Keys <= {pk}
    ensures Reaches(w, s, t1) && t1.rows == t.rows && t1.walks == t.walks
    ensures t1.joins == map[pk := j.(step := 7, second := Retrieve(t.rows, pk.purpose))]
    ensures t1.tokens == map[pk := Stored(NewEntry(j.consumer, j.pem, j.first))]
  {
    t1 := Put(w, s, t, pk, j);
    SecondRetrieve(w, s, t1, pk, j.(step := 4));
    t1 := t1.(joins := map[pk := j.(step := 7, second := Retrieve(t.rows, pk.purpose))]);
  }

  lemma SecondReads(s: Rows, p: PurposeId, j: Join)
    requires j.step == 4 && j.second == NOTHING_READ
    ensures NextJoin(s, p, NextJoin(s, p, NextJoin(s, p, j))) == j.(step := 7, second := Retrieve(s, p))
  {
  }

  lemma FinalUpdate(w: World, s: State, t: State, pk: TokenKey, j: Join, e: TokenEntry) returns (t1: State)
    requires Reaches(w, s, t) && pk.ClientKidPurpose? && t.joins == map[pk := j] && j.step == 7
    requires t.tokens == map[pk := e] && e.ConsumerEntry?
    ensures Reaches(w, s, t1) && t1.rows == t.rows && t1.walks == t.walks && t1.joins == map[pk := j.(step := 8)]
    ensures t1.tokens == map[pk := Rechecked(NewEntry(j.consumer, j.pem, j.first), e, j.second)]
  {
    OneCall(w, s, t, pk, j);
    t1 := t.(joins := map[pk := NextJoin(t.rows, pk.purpose, j)],
             tokens := WithEntry(t.tokens, pk, NextEntry(j, Lookup(t.tokens, pk))),
             marks := MarksAfterCall(t.marks, pk, j));
  }

  /** The patch with the rows that are read for a page. */
  function WithRows(s: Rows, patch: Patch): Patch {
    if !patch.PurposeJoinPatch? then patch
    else
      var read := patch.(agreement := Lookup(s.agreements, patch.home), catalog := patch.catalog);
      read.(agreement := read.agreement, catalog := CatalogOf(s, read))
  }

  /** A walk that has its only page and has read the rows for it. */
  function LastPage(s: Rows, patch: Patch, page: Tokens): Walk {
    Walk(WithRows(s, patch), None, false, page, 0)
  }

  lemma OnlyPage(w: World, s: State, t: State, rk: RowKey, patch: Patch)
    requires Reaches(w, s, t) && rk in t.walks && t.walks[rk] == Begun(patch)
    ensures Reaches(w, s, t.(walks := t.walks[rk := LastPage(t.rows, patch, PageOf(w, t.tokens, Begun(patch), None))]))
  {
    var walk := Queried(w, t.tokens, Begun(patch), None);
    ReachNext(w, s, t, Page(rk, None));
    if patch.PurposeJoinPatch? {
      BothReads(w, s, t.(walks := t.walks[rk := walk]), rk, walk);
      var ready := Reread(t.rows, Reread(t.rows, walk));
      assert t.walks[rk := walk][rk := ready] == t.walks[rk := ready];
    }
  }

  lemma BothReads(w: World, s: State, t: State, rk: RowKey, walk: Walk)
    requires Reaches(w, s, t) && rk in t.walks && t.walks[rk] == walk
    requires walk.patch.PurposeJoinPatch? && walk.unread == 2
    ensures Reaches(w, s, t.(walks := t.walks[rk := Reread(t.rows, Reread(t.rows, walk))]))
  {
    var walk1 := Reread(t.rows, walk);
    ReachNext(w, s, t, ReadRow(rk));
    ReachNext(w, s, t.(walks := t.walks[rk := walk1]), ReadRow(rk));
    assert t.walks[rk := walk1][rk := Reread(t.rows, walk1)] == t.walks[rk := Reread(t.rows, walk1)];
  }

  /** A walk that selects no entry. */
  lemma WalkOverNothing(w: World, s: State, t: State, rk: RowKey, patch: Patch)
    requires Reaches(w, s, t) && rk in t.walks && t.walks[rk] == Begun(patch)
    requires PageOf(w, t.tokens, Begun(patch), None) == map[]
    ensures Reaches(w, s, t.(walks := t.walks - {rk}))
  {
    var walk := LastPage(t.rows, patch, map[]);
    OnlyPage(w, s, t, rk, patch);
    ReachNext(w, s, t.(walks := t.walks[rk := walk]), Finish(rk));
    assert t.walks[rk := walk] - {rk} == t.walks - {rk};
  }

  lemma PageOfSelected(w: World, patch: Patch, pk: TokenKey, e: TokenEntry)
    requires Selects(patch, pk, e)
    ensures PageOf(w, map[pk := e], Begun(patch), None) == map[pk := e]
  {
  }

  /** A walk that selects one entry, in one page. */
  lemma WalkOverOne(w: World, s: State, t: State, rk: RowKey, patch: Patch, pk: TokenKey, e: TokenEntry)
    returns (t1: State)
    requires Reaches(w, s, t) && t.tokens == map[pk := e] && rk in t.walks && t.walks[rk] == Begun(patch)
    requires Selects(patch, pk, e) && !patch.PurposeJoinPatch?
    ensures Reaches(w, s, t1) && t1.rows == t.rows && t1.joins == t.joins && t1.walks == t.walks - {rk}
    ensures t1.tokens == map[pk := Patched(patch, e)]
  {
    PageOfSelected(w, patch, pk, e);
    OnlyPage(w, s, t, rk, patch);
    var walk := LastPage(t.rows, patch, map[pk := e]);
    t1 := PageOfOne(w, s, t.(walks := t.walks[rk := walk]), rk, pk, e, e);
    assert t.walks[rk := walk] - {rk} == t.walks - {rk};
  }

  /** The update and the end of a walk whose last page has one entry, read as `read`. */
  lemma PageOfOne(w: World, s: State, t: State, rk: RowKey, pk: TokenKey, read: TokenEntry, e: TokenEntry)
    returns (t1: State)
    requires Reaches(w, s, t) && t.tokens == map[pk := e] && e.ConsumerEntry? && rk in t.walks
    requires t.walks[rk] == Walk(t.walks[rk].patch, None, false, map[pk := read], 0)
    ensures Reaches(w, s, t1) && t1.rows == t.rows && t1.joins == t.joins && t1.walks == t.walks - {rk}
    ensures t1.tokens == map[pk := Updated(t.walks[rk].patch, read, e)]
  {
    ReachNext(w, s, t, Update(rk, pk));
    t1 := Step(w, t, Update(rk, pk));
    EmptiedPage(pk, read);
    LastStep(w, s, t1, rk);
    t1 := t1.(walks := t1.walks - {rk});
    assert t1.walks == t.walks - {rk};
  }

  lemma EmptiedPage(pk: TokenKey, read: TokenEntry)
    ensures map[pk := read] - {pk} == map[]
  {
    assert (map[pk := read] - {pk}).Keys == {};
  }

  lemma LastStep(w: World, s: State, t: State, rk: RowKey)
    requires Reaches(w, s, t) && rk in t.walks && t.walks[rk] == Walk(t.walks[rk].patch, None, false, map[], 0)
    ensures Reaches(w, s, t.(walks := t.walks - {rk}))
  {
    ReachNext(w, s, t, Finish(rk));
  }

  /** A row is written, and its walk gets its only page, with one entry. */
  lemma WriteAndPage(w: World, s: State, t: State, a: Action, rk: RowKey, patch: Patch, pk: TokenKey, e: TokenEntry)
    requires Reaches(w, s, t) && Enabled(w, t, a) && t.tokens == map[pk := e] && Selects(patch, pk, e)
    requires Step(w, t, a).walks == map[rk := Begun(patch)] && Step(w, t, a).tokens == t.tokens
    ensures var t1 := Step(w, t, a);
            Reaches(w, s, t1.(walks := map[rk := LastPage(t1.rows, patch, map[pk := e])]))
  {
    var t1 := Step(w, t, a);
    ReachNext(w, s, t, a);
    PageOfSelected(w, patch, pk, e);
    OnlyPage(w, s, t1, rk, patch);
    var walk := LastPage(t1.rows, patch, map[pk := e]);
    assert t1.walks[rk := walk] == map[rk := walk];
  }

  /** A row is written and its walk selects no entry. */
  lemma WriteOverNothing(w: World, s: State, t: State, a: Action, rk: RowKey, patch: Patch)
    requires Reaches(w, s, t) && Enabled(w, t, a) && rk !in t.walks
    requires Step(w, t, a).walks == t.walks[rk := Begun(patch)]
    requires PageOf(w, Step(w, t, a).tokens, Begun(patch), None) == map[]
    ensures Reaches(w, s, Step(w, t, a).(walks := t.walks))
  {
    ReachNext(w, s, t, a);
    WalkOverNothing(w, s, Step(w, t, a), rk, patch);
    assert Step(w, t, a).walks - {rk} == t.walks;
  }

  /* ---- two writes of the purpose row ---- */

  function WithPurpose(rows: Rows, p: PurposeId, row: PurposeRow): Rows {
    rows.(purposes := map[p := row])
  }

  /** A purpose is activated between the two reads and suspended again after the second one; the final
      update brings ACTIVE back. */
  lemma TwoWritesDefeatTheCheck(w: World, pk: TokenKey, pem: string, row: PurposeRow) returns (t: State)
    requires pk.ClientKidPurpose? && AgreementKey(row.consumer, row.eservice) == w.home(pk.purpose)
    ensures Reaches(w, Still(WithPurpose(NO_ROWS, pk.purpose, row.(state := INACTIVE)), map[]), t)
    ensures t.walks == map[] && pk in t.joins && t.joins[pk].step == 8 && t.joins[pk].onPurpose == Disturbed
    ensures pk in t.tokens && t.tokens[pk].ConsumerEntry? && t.tokens[pk].purposeState == Some(ACTIVE)
    ensures Lookup(t.rows.purposes, pk.purpose) == Some(row.(state := INACTIVE))
  {
    var p, off, on := pk.purpose, row.(state := INACTIVE), row.(state := ACTIVE);
    var s := Still(WithPurpose(NO_ROWS, p, off), map[]);
    ReachesItself(w, s);
    FirstRetrieval(w, s, s, pk, pem);
    var j := FirstRead(w, s.rows, pk, pem);
    WriteOverNothing(w, s, s.(joins := map[pk := j]), ChangePurpose(p, on), OfPurpose(p),
                     PurposePatch(p, on.state, on.versionId));
    var t1 := State(WithPurpose(NO_ROWS, p, on), map[], map[pk := j.(onPurpose := OneWrite)], map[], NO_MARKS);
    assert t1 == Step(w, s.(joins := map[pk := j]), ChangePurpose(p, on)).(walks := map[]);
    t := PutAndRetrieve(w, s, t1, pk, j.(onPurpose := OneWrite));
    var e := Stored(NewEntry(j.consumer, pem, j.first));
    var j7 := j.(step := 7, onPurpose := OneWrite, second := Retrieve(t1.rows, p));
    t := SuspendAgain(w, s, t, pk, j7, e, off);
    t := FinalUpdate(w, s, t, pk, j7.(onPurpose := Disturbed), e);
  }

  /** The second write finds the entry as it is to be. */
  lemma SuspendAgain(w: World, s: State, t: State, pk: TokenKey, j: Join, e: TokenEntry, row: PurposeRow)
    returns (t1: State)
    requires Reaches(w, s, t) && pk.ClientKidPurpose? && AgreementKey(row.consumer, row.eservice) == w.home(pk.purpose)
    requires t.walks == map[] && t.joins == map[pk := j] && j.step == 7 && j.onPurpose == OneWrite
    requires t.tokens == map[pk := e] && e.ConsumerEntry? && pk.purpose in t.rows.purposes
    requires e.purposeState == Some(row.state) && e.purposeVersionId == Some(row.versionId)
    ensures Reaches(w, s, t1) && t1.walks == map[] && t1.tokens == t.tokens
    ensures t1.joins == map[pk := j.(onPurpose := Disturbed)]
    ensures t1.rows == t.rows.(purposes := t.rows.purposes[pk.purpose := row])
  {
    var a, rk := ChangePurpose(pk.purpose, row), OfPurpose(pk.purpose);
    ReachNext(w, s, t, a);
    t1 := Step(w, t, a);
    assert t1.joins == map[pk := j.(onPurpose := Disturbed)];
    t1 := WalkOverOne(w, s, t1, rk, PurposePatch(pk.purpose, row.state, row.versionId), pk, e);
    assert t1.walks == map[];
    assert Patched(PurposePatch(pk.purpose, row.state, row.versionId), e) == e;
  }

  /* ---- one write of each of two rows ---- */

  function JoinWalk(w: World, p: PurposeId, row: PurposeRow): Patch {
    PurposeJoinPatch(p, row.state, row.versionId, w.home(p), None, None)
  }

  /** A purpose activated between the two reads gives the entry its agreement key only with the final
      update; an agreement write just before that update is propagated past the entry, which then
      shows the earlier state. */
  lemma LateKeyDefeatsTheCheck(w: World, pk: TokenKey, pem: string, row: PurposeRow, a: AgreementRow, state: ItemState)
    returns (t: State)
    requires pk.ClientKidPurpose? && AgreementKey(row.consumer, row.eservice) == w.home(pk.purpose) && state != a.state
    ensures Reaches(w, Still(NO_ROWS.(agreements := map[w.home(pk.purpose) := a]), map[]), t)
    ensures t.walks == map[] && pk in t.joins && t.joins[pk].step == 8
    ensures t.joins[pk].onPurpose == OneWrite && t.joins[pk].onAgreement == OneWrite
    ensures pk in t.tokens && t.tokens[pk].ConsumerEntry? && t.tokens[pk].agreementKey == Some(w.home(pk.purpose))
    ensures !ShowsAgreement(w.home(pk.purpose), t.tokens[pk], Lookup(t.rows.agreements, w.home(pk.purpose)))
  {
    var p, k := pk.purpose, w.home(pk.purpose);
    var s := Still(NO_ROWS.(agreements := map[k := a]), map[]);
    ReachesItself(w, s);
    FirstRetrieval(w, s, s, pk, pem);
    var j := FirstRead(w, s.rows, pk, pem);
    var t0 := s.(joins := map[pk := j]);
    WriteOverNothing(w, s, t0, ActivatePurpose(p, row), OfPurpose(p), JoinWalk(w, p, row));
    var t1 := State(WithPurpose(s.rows, p, row), map[], map[pk := j.(onPurpose := OneWrite)], map[], NO_MARKS);
    assert t1 == Step(w, t0, ActivatePurpose(p, row)).(walks := map[]);
    t := PutAndRetrieve(w, s, t1, pk, j.(onPurpose := OneWrite));
    var j7 := j.(step := 7, onPurpose := OneWrite, second := Retrieved(Some(row), Some(a), None));
    assert t.tokens == map[pk := PartialEntry(k.consumer, pem)];
    t := LateWrite(w, s, t, pk, j7, a, state);
    t := FinalUpdate(w, s, t, pk, j7.(onAgreement := OneWrite, lateAgreement := true), PartialEntry(k.consumer, pem));
  }

  lemma LateWrite(w: World, s: State, t: State, pk: TokenKey, j: Join, a: AgreementRow, state: ItemState)
    returns (t1: State)
    requires Reaches(w, s, t) && pk.ClientKidPurpose? && t.joins == map[pk := j] && t.walks == map[]
    requires j.step == 7 && j.onAgreement == Quiet && !j.moved && t.rows.agreements == map[w.home(pk.purpose) := a]
    requires forall other :: other in t.tokens ==> t.tokens[other].ConsumerEntry? && t.tokens[other].agreementKey.None?
    ensures Reaches(w, s, t1) && t1.walks == map[] && t1.tokens == t.tokens
    ensures t1.joins == map[pk := j.(onAgreement := OneWrite, lateAgreement := true)]
    ensures t1.rows.agreements == map[w.home(pk.purpose) := a.(state := state)]
  {
    var k := w.home(pk.purpose);
    WriteOverNothing(w, s, t, ChangeAgreement(k, state), OfAgreement(k), AgreementStatePatch(k, state));
    t1 := Step(w, t, ChangeAgreement(k, state)).(walks := map[]);
    assert t1.joins == map[pk := j.(onAgreement := OneWrite, lateAgreement := true)];
    assert t1.rows.agreements == map[k := a.(state := state)];
  }

  /** The same one row further.  An agreement upgraded between the two reads gives the entry its new
      descriptor key only with the final update; a write of the new descriptor's row just before is
      propagated past the entry. */
  lemma LateDescriptorDefeatsTheCheck(w: World, pk: TokenKey, pem: string, row: PurposeRow, a: AgreementRow,
                                      b: AgreementRow, c: CatalogRow, state: ItemState)
    returns (t: State)
    requires pk.ClientKidPurpose? && AgreementKey(row.consumer, row.eservice) == w.home(pk.purpose) && state != c.state
    requires a.descriptor != b.descriptor
    ensures var d := DescriptorKey(w.home(pk.purpose).eservice, b.descriptor);
            Reaches(w, Still(Rows(map[pk.purpose := row], map[w.home(pk.purpose) := a], map[d := c], map[]), map[]), t)
    ensures t.walks == map[] && pk in t.joins && t.joins[pk].step == 8
    ensures t.joins[pk].onPurpose == t.joins[pk].onCatalog == Quiet && t.joins[pk].onAgreement == OneWrite
    ensures pk in t.tokens && t.tokens[pk].ConsumerEntry?
    ensures t.tokens[pk].descriptorKey == Some(DescriptorKey(w.home(pk.purpose).eservice, b.descriptor))
    ensures !ShowsDescriptor(t.tokens[pk], Lookup(t.rows.descriptors, t.tokens[pk].descriptorKey.value))
  {
    var p, k := pk.purpose, w.home(pk.purpose);
    var d := DescriptorKey(k.eservice, b.descriptor);
    var s := Still(Rows(map[p := row], map[k := a], map[d := c], map[]), map[]);
    ReachesItself(w, s);
    FirstRetrieval(w, s, s, pk, pem);
    var j := FirstRead(w, s.rows, pk, pem);
    assert j.first == Retrieved(Some(row), Some(a), None);
    var t1 := Upgraded(w, s, s.(joins := map[pk := j]), pk, j, a, b, c);
    var j1 := j.(onAgreement := OneWrite, moved := true);
    t := PutAndRetrieve(w, s, t1, pk, j1);
    var e := Stored(NewEntry(j.consumer, pem, j.first));
    var j7 := j1.(step := 7, second := Retrieved(Some(row), Some(b), Some(c)));
    t := LateDescriptorWrite(w, s, t, pk, j7, e, c, state);
    t := FinalUpdate(w, s, t, pk, j7.(lateCatalog := true), e);
  }

  lemma Upgraded(w: World, s: State, t: State, pk: TokenKey, j: Join, a: AgreementRow, b: AgreementRow, c: CatalogRow)
    returns (t1: State)
    requires Reaches(w, s, t) && pk.ClientKidPurpose? && t.joins == map[pk := j] && t.walks == map[]
             && t.tokens == map[]
    requires j.step == 3 && j.onAgreement == Quiet && !j.lateAgreement && a.descriptor != b.descriptor
    requires t.rows.agreements == map[w.home(pk.purpose) := a]
    ensures Reaches(w, s, t1)
    ensures t1 == t.(rows := t.rows.(agreements := map[w.home(pk.purpose) := b]),
                     joins := map[pk := j.(onAgreement := OneWrite, moved := true)])
  {
    var k := w.home(pk.purpose);
    WriteOverNothing(w, s, t, ActivateAgreement(k, b, Some(c)), OfAgreement(k), WholePatch(k, b, Some(c)));
    t1 := Step(w, t, ActivateAgreement(k, b, Some(c))).(walks := map[]);
    assert t1.joins == map[pk := j.(onAgreement := OneWrite, moved := true)];
    assert t1.rows.agreements == map[k := b];
  }

  lemma LateDescriptorWrite(w: World, s: State, t: State, pk: TokenKey, j: Join, e: TokenEntry, c: CatalogRow,
                            state: ItemState)
    returns (t1: State)
    requires Reaches(w, s, t) && pk.ClientKidPurpose? && t.joins == map[pk := j] && t.walks == map[]
             && t.tokens == map[pk := e]
    requires j.step == 7 && j.first.agreement.Some? && j.second.agreement.Some? && !j.lateCatalog
    requires j.first.agreement.value.descriptor != j.second.agreement.value.descriptor
    requires e.ConsumerEntry? && e.descriptorKey == KeyRead(w, pk, j.first.agreement)
    requires t.rows.descriptors == map[KeyRead(w, pk, j.second.agreement).value := c]
    ensures Reaches(w, s, t1) && t1.walks == map[] && t1.tokens == t.tokens
    ensures t1.joins == map[pk := j.(lateCatalog := true)]
    ensures t1.rows.descriptors == map[KeyRead(w, pk, j.second.agreement).value := c.(state := state)]
  {
    var d := KeyRead(w, pk, j.second.agreement).value;
    WriteOverNothing(w, s, t, ChangeDescriptor(d, state), OfDescriptor(d), DescriptorStatePatch(d, state));
    t1 := Step(w, t, ChangeDescriptor(d, state)).(walks := map[]);
    assert t1.joins == map[pk := j.(lateCatalog := true)];
    assert t1.rows.descriptors == map[d := c.(state := state)];
  }

  /* ---- an update with what its page was read with ---- */

  /** The join walk of a purpose activation reads the agreement row with its page.  A write of that
      row before the page's update is propagated past the entry, which has no agreement key yet. */
  lemma StalePageDefeatsTheWalk(w: World, pk: TokenKey, pem: string, row: PurposeRow, a: AgreementRow, state: ItemState)
    returns (t: State)
    requires pk.ClientKidPurpose? && AgreementKey(row.consumer, row.eservice) == w.home(pk.purpose) && state != a.state
    ensures var k := w.home(pk.purpose);
            Reaches(w, Still(NO_ROWS.(agreements := map[k := a]), map[pk := PartialEntry(k.consumer, pem)]), t)
    ensures t.walks == map[] && t.joins == map[]
    ensures pk in t.tokens && t.tokens[pk].ConsumerEntry? && t.tokens[pk].agreementKey == Some(w.home(pk.purpose))
    ensures !ShowsAgreement(w.home(pk.purpose), t.tokens[pk], Lookup(t.rows.agreements, w.home(pk.purpose)))
  {
    var p, k, e := pk.purpose, w.home(pk.purpose), PartialEntry(w.home(pk.purpose).consumer, pem);
    var s := Still(NO_ROWS.(agreements := map[k := a]), map[pk := e]);
    ReachesItself(w, s);
    assert Step(w, s, ActivatePurpose(p, row)).joins == map[];
    WriteAndPage(w, s, s, ActivatePurpose(p, row), OfPurpose(p), JoinWalk(w, p, row), pk, e);
    var patch := PurposeJoinPatch(p, row.state, row.versionId, k, Some(a), None);
    var page := Walk(patch, None, false, map[pk := e], 0);
    var t2 := State(WithPurpose(s.rows, p, row), s.tokens, map[], map[OfPurpose(p) := page], NO_MARKS);
    assert t2 == Step(w, s, ActivatePurpose(p, row)).(walks := map[OfPurpose(p) := page]);
    WriteOverNothing(w, s, t2, ChangeAgreement(k, state), OfAgreement(k), AgreementStatePatch(k, state));
    t := Step(w, t2, ChangeAgreement(k, state)).(walks := t2.walks);
    assert t.joins == map[];
    t := PageOfOne(w, s, t, OfPurpose(p), pk, e, e);
  }

  /** The walk of a descriptor reaches an entry that was moved to another descriptor since the page was
      read, and leaves the state of the old one there. */
  lemma OldPageDefeatsTheUpgrade(w: World, pk: TokenKey, e: TokenEntry, a: AgreementRow, b: AgreementRow,
                                 c: CatalogRow, c1: CatalogRow, state: ItemState)
    returns (t: State)
    requires pk.ClientKidPurpose? && e.ConsumerEntry? && e.agreementKey == Some(w.home(pk.purpose))
    requires e.descriptorKey == Some(DescriptorKey(w.home(pk.purpose).eservice, a.descriptor))
    requires a.descriptor != b.descriptor && state != c1.state
    ensures var k := w.home(pk.purpose);
            var descriptors := map[DescriptorKey(k.eservice, a.descriptor) := c,
                                   DescriptorKey(k.eservice, b.descriptor) := c1];
            Reaches(w, Still(Rows(map[], map[k := a], descriptors, map[]), map[pk := e]), t)
    ensures t.walks == map[] && t.joins == map[]
    ensures pk in t.tokens && t.tokens[pk].ConsumerEntry?
    ensures t.tokens[pk].descriptorKey == Some(DescriptorKey(w.home(pk.purpose).eservice, b.descriptor))
    ensures !ShowsDescriptor(t.tokens[pk], Lookup(t.rows.descriptors, t.tokens[pk].descriptorKey.value))
  {
    var k := w.home(pk.purpose);
    var d, d1 := DescriptorKey(k.eservice, a.descriptor), DescriptorKey(k.eservice, b.descriptor);
    var s := Still(Rows(map[], map[k := a], map[d := c, d1 := c1], map[]), map[pk := e]);
    ReachesItself(w, s);
    var patch := DescriptorStatePatch(d, state);
    assert Step(w, s, ChangeDescriptor(d, state)).joins == map[];
    WriteAndPage(w, s, s, ChangeDescriptor(d, state), OfDescriptor(d), patch, pk, e);
    var page := Walk(patch, None, false, map[pk := e], 0);
    t := Step(w, s, ChangeDescriptor(d, state)).(walks := map[OfDescriptor(d) := page]);
    t := MovedAway(w, s, t, pk, e, b, c1);
    assert t.joins == map[];
    t := PageOfOne(w, s, t, OfDescriptor(d), pk, e, Patched(WholePatch(k, b, Some(c1)), e));
  }

  /** The upgrade, whose own walk is done in one page. */
  lemma MovedAway(w: World, s: State, t: State, pk: TokenKey, e: TokenEntry, b: AgreementRow, c1: CatalogRow)
    returns (t1: State)
    requires Reaches(w, s, t) && pk.ClientKidPurpose? && t.tokens == map[pk := e]
    requires e.ConsumerEntry? && e.agreementKey == Some(w.home(pk.purpose))
             && OfAgreement(w.home(pk.purpose)) !in t.walks
    ensures Reaches(w, s, t1) && t1.walks == t.walks
    ensures t1.rows == t.rows.(agreements := t.rows.agreements[w.home(pk.purpose) := b])
    ensures t1.joins == AgreementBumped(w, t.joins, w.home(pk.purpose), Moves(t.rows, w.home(pk.purpose), b))
    ensures t1.tokens == map[pk := Patched(WholePatch(w.home(pk.purpose), b, Some(c1)), e)]
  {
    var k := w.home(pk.purpose);
    ReachNext(w, s, t, ActivateAgreement(k, b, Some(c1)));
    t1 := Step(w, t, ActivateAgreement(k, b, Some(c1)));
    t1 := WalkOverOne(w, s, t1, OfAgreement(k), WholePatch(k, b, Some(c1)), pk, e);
    assert t1.walks == t.walks;
  }

  /* ---- an update that skips what its page showed ---- */

  /** A key is added again for an ACTIVE purpose whose agreement moves from the INACTIVE descriptor of row
      `c` to the ACTIVE one of row `d`. */
  datatype Case = Case(
    pk: TokenKey,
    pem: string,
    row: PurposeRow,
    a: AgreementRow,
    b: AgreementRow,
    c: CatalogRow,
    d: CatalogRow)

  predicate Fits(w: World, x: Case) {
    && x.pk.ClientKidPurpose? && AgreementKey(x.row.consumer, x.row.eservice) == w.home(x.pk.purpose)
    && x.row.state == x.a.state == x.b.state == x.d.state == ACTIVE && x.c.state == INACTIVE
    && x.a.descriptor != x.b.descriptor
  }

  function Of(w: World, x: Case, row: AgreementRow): DescriptorKey
    requires x.pk.ClientKidPurpose?
  {
    DescriptorKey(w.home(x.pk.purpose).eservice, row.descriptor)
  }

  function RowsWith(w: World, x: Case, agreement: AgreementRow, state: ItemState): Rows
    requires x.pk.ClientKidPurpose?
  {
    Rows(map[x.pk.purpose := x.row], map[w.home(x.pk.purpose) := agreement],
         map[Of(w, x, x.a) := x.c, Of(w, x, x.b) := x.d.(state := state)], map[])
  }

  /** The entry as a join on the rows puts it, before the upgrade, and as the upgrade's walk leaves it. */
  function EntryBefore(w: World, x: Case): TokenEntry
    requires x.pk.ClientKidPurpose?
  {
    Stored(NewEntry(w.home(x.pk.purpose).consumer, x.pem, Retrieved(Some(x.row), Some(x.a), Some(x.c))))
  }

  function EntryMoved(w: World, x: Case): TokenEntry
    requires x.pk.ClientKidPurpose?
  {
    Patched(WholePatch(w.home(x.pk.purpose), x.b, Some(x.d)), EntryBefore(w, x))
  }

  function JoinOf(w: World, x: Case): Join
    requires x.pk.ClientKidPurpose?
  {
    NewJoin(w.home(x.pk.purpose).consumer, x.pem).(step := 3,
                                                    first := Retrieved(Some(x.row), Some(x.a), Some(x.c)),
                                                    onAgreement := OneWrite, moved := true)
  }

  /** The join reads the rows, and then the agreement is upgraded and its walk moves the entry. */
  lemma UpgradeMeanwhile(w: World, x: Case) returns (t: State)
    requires Fits(w, x)
    ensures Reaches(w, Still(RowsWith(w, x, x.a, ACTIVE), map[x.pk := EntryBefore(w, x)]), t) && t.walks == map[]
    ensures t.rows == RowsWith(w, x, x.b, ACTIVE) && t.joins == map[x.pk := JoinOf(w, x)]
    ensures t.tokens == map[x.pk := EntryMoved(w, x)]
  {
    var s, k := Still(RowsWith(w, x, x.a, ACTIVE), map[x.pk := EntryBefore(w, x)]), w.home(x.pk.purpose);
    ReachesItself(w, s);
    FirstRetrieval(w, s, s, x.pk, x.pem);
    var j := FirstRead(w, s.rows, x.pk, x.pem);
    assert j.first == Retrieved(Some(x.row), Some(x.a), Some(x.c));
    t := MovedAway(w, s, s.(joins := map[x.pk := j]), x.pk, EntryBefore(w, x), x.b, x.d);
    assert t.joins == map[x.pk := JoinOf(w, x)];
    assert t.rows.agreements == map[k := x.b];
  }

  function PatchRead(w: World, x: Case): Patch
    requires x.pk.ClientKidPurpose?
  {
    PurposeJoinPatch(x.pk.purpose, ACTIVE, x.row.versionId, w.home(x.pk.purpose), Some(x.b), Some(x.d))
  }

  function PageRead(w: World, x: Case): Walk
    requires x.pk.ClientKidPurpose?
  {
    Walk(PatchRead(w, x), None, false, map[x.pk := EntryMoved(w, x)], 0)
  }

  /** The purpose is activated; the page shows the entry on its new descriptor. */
  lemma PageShowsMoved(w: World, x: Case, s: State, t: State) returns (t1: State)
    requires Fits(w, x) && Reaches(w, s, t) && t.walks == map[] && t.rows == RowsWith(w, x, x.b, ACTIVE)
    requires t.joins == map[x.pk := JoinOf(w, x)] && t.tokens == map[x.pk := EntryMoved(w, x)]
    ensures Reaches(w, s, t1) && t1.rows == t.rows && t1.tokens == t.tokens
    ensures t1.joins == map[x.pk := JoinOf(w, x).(onPurpose := OneWrite)]
    ensures t1.walks == map[OfPurpose(x.pk.purpose) := PageRead(w, x)]
  {
    var p, a := x.pk.purpose, ActivatePurpose(x.pk.purpose, x.row);
    WriteAndPage(w, s, t, a, OfPurpose(p), JoinWalk(w, p, x.row), x.pk, EntryMoved(w, x));
    var page := LastPage(t.rows, JoinWalk(w, p, x.row), map[x.pk := EntryMoved(w, x)]);
    t1 := Step(w, t, a).(walks := map[OfPurpose(p) := page]);
    assert t1.rows.purposes == map[p := x.row];
    assert t1.joins == map[x.pk := JoinOf(w, x).(onPurpose := OneWrite)];
  }

  /** The join puts its entry, on the first descriptor; the update of the walk takes it for the one that
      it has read, and writes the state of the second descriptor alone. */
  lemma PutThenUpdated(w: World, x: Case, s: State, t: State) returns (t1: State)
    requires Fits(w, x) && Reaches(w, s, t) && t.rows == RowsWith(w, x, x.b, ACTIVE)
    requires t.joins == map[x.pk := JoinOf(w, x).(onPurpose := OneWrite)] && t.tokens == map[x.pk := EntryMoved(w, x)]
    requires t.walks == map[OfPurpose(x.pk.purpose) := PageRead(w, x)]
    ensures Reaches(w, s, t1) && t1.rows == t.rows && t1.walks == map[]
    ensures t1.joins == map[x.pk := JoinOf(w, x).(onPurpose := OneWrite, step := 4)]
    ensures t1.tokens == map[x.pk := WithCatalog(EntryBefore(w, x), Some(x.d))]
  {
    var rk := OfPurpose(x.pk.purpose);
    t1 := Put(w, s, t, x.pk, JoinOf(w, x).(onPurpose := OneWrite));
    t1 := PageOfOne(w, s, t1, rk, x.pk, EntryMoved(w, x), EntryBefore(w, x));
    assert t1.walks == map[];
    assert Updated(PatchRead(w, x), EntryMoved(w, x), EntryBefore(w, x)) == WithCatalog(EntryBefore(w, x), Some(x.d));
  }

  /** The second descriptor becomes INACTIVE, and the index does not find the entry. */
  lemma OffUnseen(w: World, x: Case, s: State, t: State) returns (t1: State)
    requires Fits(w, x) && Reaches(w, s, t) && t.rows == RowsWith(w, x, x.b, ACTIVE) && t.walks == map[]
    requires t.joins == map[x.pk := JoinOf(w, x).(onPurpose := OneWrite, step := 4)]
    requires t.tokens == map[x.pk := WithCatalog(EntryBefore(w, x), Some(x.d))]
    ensures Reaches(w, s, t1) && t1.rows == RowsWith(w, x, x.b, INACTIVE) && t1.walks == map[]
    ensures t1.joins == t.joins && t1.tokens == t.tokens
  {
    var d := Of(w, x, x.b);
    WriteOverNothing(w, s, t, ChangeDescriptor(d, INACTIVE), OfDescriptor(d), DescriptorStatePatch(d, INACTIVE));
    t1 := Step(w, t, ChangeDescriptor(d, INACTIVE)).(walks := map[]);
    assert t1.joins == t.joins;
    assert t1.rows.descriptors == RowsWith(w, x, x.b, INACTIVE).descriptors;
  }

  /** Every window of the join is in time, and still the entry ends ACTIVE throughout on a descriptor
      that is INACTIVE: the update of the walk skipped the agreement columns, since its page had shown
      them right, and the final update does not see that it wrote another descriptor's state. */
  lemma SkippedColumnsDefeatTheCheck(w: World, x: Case) returns (t: State)
    requires Fits(w, x)
    ensures Reaches(w, Still(RowsWith(w, x, x.a, ACTIVE), map[x.pk := EntryBefore(w, x)]), t) && t.walks == map[]
    ensures x.pk in t.joins && t.joins[x.pk].step == 8 && PurposeInTime(t.joins[x.pk])
            && AgreementInTime(t.joins[x.pk]) && CatalogInTime(t.joins[x.pk], false)
    ensures x.pk in t.tokens && t.tokens[x.pk].ConsumerEntry?
            && t.tokens[x.pk].purposeState == t.tokens[x.pk].agreementState == t.tokens[x.pk].descriptorState
               == Some(ACTIVE)
    ensures t.tokens[x.pk].descriptorKey == Some(Of(w, x, x.b))
    ensures Lookup(t.rows.descriptors, Of(w, x, x.b)) == Some(x.d.(state := INACTIVE))
  {
    var s := Still(RowsWith(w, x, x.a, ACTIVE), map[x.pk := EntryBefore(w, x)]);
    t := UpgradeMeanwhile(w, x);
    t := PageShowsMoved(w, x, s, t);
    t := PutThenUpdated(w, x, s, t);
    t := OffUnseen(w, x, s, t);
    var j := JoinOf(w, x).(onPurpose := OneWrite, step := 4);
    SecondRetrieve(w, s, t, x.pk, j);
    var j7 := j.(step := 7, second := Retrieve(t.rows, x.pk.purpose));
    assert j7.second == Retrieved(Some(x.row), Some(x.b), Some(x.d.(state := INACTIVE)));
    t := FinalUpdate(w, s, t.(joins := map[x.pk := j7]), x.pk, j7, WithCatalog(EntryBefore(w, x), Some(x.d)));
  }
}
