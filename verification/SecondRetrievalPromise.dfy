/** What the second retrieval is for, told from the run alone: if at most one upstream row is written
    while an entry is being joined, the entry ends up agreeing with all three of its rows. */
module SecondRetrievalPromise {
  import opened Wrappers
  import opened Domain
  import opened Tables
  import opened AuthorizationWriter
  import opened Coherence
  import opened SecondRetrieval

  /** How many calls the join of the entry has made, eight when there is none under way, and how many
      rows were written since the first of them. */
  datatype Watch = Watch(calls: nat, writes: nat)

  const IDLE := Watch(8, 0)

  /** The action writes the row of the entry's purpose, of its agreement, or of a descriptor of the
      e-service. */
  predicate Disturbs(w: World, a: Action, pk: TokenKey)
    requires pk.ClientKidPurpose?
  {
    match a
    case ActivatePurpose(p, _) => p == pk.purpose
    case ChangePurpose(p, _) => p == pk.purpose
    case ArchivePurpose(p, _) => p == pk.purpose
    case ActivateAgreement(k, _, _) => k == w.home(pk.purpose)
    case ChangeAgreement(k, _) => k == w.home(pk.purpose)
    case PublishDescriptor(d, _) => d.eservice == w.home(pk.purpose).eservice
    case ChangeDescriptor(d, _) => d.eservice == w.home(pk.purpose).eservice
    case DeleteDescriptor(d, _) => d.eservice == w.home(pk.purpose).eservice
    case _ => false
  }

  predicate Deletes(a: Action) {
    a.ArchivePurpose? || a.DeleteDescriptor?
  }

  predicate DuringJoin(o: Watch) {
    1 <= o.calls < 8
  }

  function Watched(w: World, a: Action, pk: TokenKey, o: Watch): Watch
    requires pk.ClientKidPurpose?
  {
    if a.Begin? && a.pk == pk then Watch(0, 0)
    else if a == Advance(pk) then Watch(o.calls + 1, o.writes)
    else if Disturbs(w, a, pk) && DuringJoin(o) then Watch(o.calls, o.writes + 1)
    else o
  }

  /** A propagation updates an entry that is still as it was read, and still selected, with rows that are
      still as they were read. */
  predicate Fresh(s: State, walk: Walk, pk: TokenKey) {
    && pk in s.tokens && pk in walk.page && walk.page[pk] == s.tokens[pk] && Selects(walk.patch, pk, s.tokens[pk])
    && match walk.patch
       case PurposeJoinPatch(_, _, _, home, agreement, catalog) =>
         && agreement == Lookup(s.rows.agreements, home)
         && catalog == (if agreement.None? then None
                        else Lookup(s.rows.descriptors, DescriptorKey(home.eservice, agreement.value.descriptor)))
       case AgreementPatch(_, _, _, target, catalog) => catalog == Lookup(s.rows.descriptors, target)
       case _ => true
  }

  predicate Spares(w: World, s: State, a: Action, pk: TokenKey, o: Watch)
    requires pk.ClientKidPurpose?
  {
    && (Disturbs(w, a, pk) && DuringJoin(o) ==> o.writes == 0 && !Deletes(a))
    && (a.Update? && a.pk == pk && a.rk in s.walks ==> Fresh(s, s.walks[a.rk], pk))
  }

  /** Each join of the entry sees at most one write, and no deletion, of its rows; and propagations update
      the entry with what they have freshly read. */
  ghost predicate OneWriteAtMost(w: World, s: State, actions: seq<Action>, pk: TokenKey, o: Watch)
    requires Valid(w, s, actions) && pk.ClientKidPurpose?
    decreases |actions|
  {
    actions == []
    || (Spares(w, s, actions[0], pk, o)
        && OneWriteAtMost(w, Step(w, s, actions[0]), actions[1..], pk, Watched(w, actions[0], pk, o)))
  }

  /* ---- what runs there are ---- */

  /** A writer whose last propagation is over may handle any next message, and the agreement writer may
      propagate its row again; a join may begin at any time, and go on to its eighth call. */
  lemma WritersMayGoOn(w: World, s: State, p: PurposeId, row: PurposeRow, versionId: PurposeVersionId, k: AgreementKey,
                       agreementRow: AgreementRow, d: DescriptorKey, catalogRow: CatalogRow, state: ItemState,
                       catalog: Option<CatalogRow>, pk: TokenKey, pem: string)
    requires pk.ClientKidPurpose?
    ensures OfPurpose(p) !in s.walks ==> Enabled(w, s, ArchivePurpose(p, versionId))
    ensures OfPurpose(p) !in s.walks && AgreementKey(row.consumer, row.eservice) == w.home(p) ==>
              Enabled(w, s, ActivatePurpose(p, row)) && (p in s.rows.purposes ==> Enabled(w, s, ChangePurpose(p, row)))
    ensures OfAgreement(k) !in s.walks ==>
              && Enabled(w, s, ActivateAgreement(k, agreementRow, catalog))
              && (k in s.rows.agreements ==>
                    Enabled(w, s, RewalkAgreement(k, catalog)) && Enabled(w, s, ChangeAgreement(k, state)))
    ensures OfDescriptor(d) !in s.walks ==>
              && Enabled(w, s, PublishDescriptor(d, catalogRow)) && Enabled(w, s, DeleteDescriptor(d, state))
              && (d in s.rows.descriptors ==> Enabled(w, s, ChangeDescriptor(d, state)))
    ensures Enabled(w, s, Begin(pk, pem)) && (Busy(s, pk) ==> Enabled(w, s, Advance(pk)))
  {
  }

  /** A propagation is never stuck: the rows of its page are read, its entries are updated, the next page is
      queried, whatever the last key of it, and after the last one it is over. */
  lemma WalksGoOn(w: World, s: State, rk: RowKey, last: int)
    requires rk in s.walks
    ensures var walk := s.walks[rk];
            if walk.unread > 0 then Enabled(w, s, ReadRow(rk))
            else if walk.page != map[] then
              forall pk :: pk in walk.page && pk in s.tokens && s.tokens[pk].ConsumerEntry? ==>
                  Enabled(w, s, Update(rk, pk))
            else if walk.more then
              && Enabled(w, s, Page(rk, None))
              && (walk.cursor.None? || last > walk.cursor.value ==> Enabled(w, s, Page(rk, Some(last))))
            else Enabled(w, s, Finish(rk))
  {
  }

  /* ---- what the join's windows make of that ---- */

  predicate Untouched(j: Join) {
    j.onPurpose == j.onAgreement == j.onCatalog == Quiet && !j.lateAgreement && !j.lateCatalog && !j.moved
  }

  predicate OnceTouched(j: Join) {
    && j.onPurpose != Disturbed && j.onAgreement != Disturbed && j.onCatalog != Disturbed
    && (j.onPurpose == OneWrite ==> j.onAgreement == Quiet && j.onCatalog == Quiet && !j.lateCatalog)
    && (j.onAgreement == OneWrite ==> j.onCatalog == Quiet && !j.lateCatalog)
    && (j.lateAgreement || j.moved ==> j.onAgreement == OneWrite)
  }

  predicate Tracks(s: State, pk: TokenKey, o: Watch) {
    && (Busy(s, pk) <==> o.calls < 8)
    && (Busy(s, pk) ==>
          && s.joins[pk].step == o.calls
          && (o.writes == 0 ==> Untouched(s.joins[pk]))
          && (o.writes <= 1 ==> OnceTouched(s.joins[pk])))
    && o.writes <= 1
  }

  lemma WriteIsTracked(w: World, s: State, a: Action, pk: TokenKey, o: Watch)
    requires Enabled(w, s, a) && pk.ClientKidPurpose? && Tracks(s, pk, o) && Spares(w, s, a, pk, o)
    requires !IsJoinAction(a) && !IsWalkAction(a)
    ensures Tracks(Step(w, s, a), pk, Watched(w, a, pk, o))
  {
  }

  lemma CallIsTracked(w: World, s: State, a: Action, pk: TokenKey, o: Watch)
    requires Enabled(w, s, a) && pk.ClientKidPurpose? && Tracks(s, pk, o) && IsJoinAction(a)
    ensures Tracks(Step(w, s, a), pk, Watched(w, a, pk, o))
  {
  }

  lemma StepIsTracked(w: World, s: State, a: Action, pk: TokenKey, o: Watch)
    requires Enabled(w, s, a) && pk.ClientKidPurpose? && Tracks(s, pk, o) && Spares(w, s, a, pk, o)
    ensures Tracks(Step(w, s, a), pk, Watched(w, a, pk, o))
  {
    if IsJoinAction(a) {
      CallIsTracked(w, s, a, pk, o);
    } else if IsWalkAction(a) {
      assert Step(w, s, a).joins == s.joins;
    } else {
      WriteIsTracked(w, s, a, pk, o);
    }
  }

  /** A row that appeared between the two reads took the one write. */
  lemma OneWriteIsInTime(w: World, s: State, pk: TokenKey)
    requires Sane(w, s) && pk.ClientKidPurpose? && Races(w, s, pk)
    requires pk in s.joins && s.joins[pk].step == 7 && OnceTouched(s.joins[pk])
    ensures var j := s.joins[pk]; PurposeInTime(j) && AgreementInTime(j) && CatalogInTime(j, false)
  {
    var j := s.joins[pk];
    assert JoinSane(w, s.rows, pk, j) && Busy(s, pk);
    assert PurposeRaceAt(w, s, pk) && AgreementRaceAt(w, s, pk) && CatalogRaceAt(w, s, pk);
  }

  lemma FreshUpdateIsInTime(w: World, s: State, rk: RowKey, pk: TokenKey)
    requires Sane(w, s) && pk.ClientKidPurpose? && rk in s.walks && Fresh(s, s.walks[rk], pk)
    ensures s.tokens[pk].ConsumerEntry?
    ensures !AgreementMark(s.rows, s.walks[rk].patch, s.walks[rk].page[pk], s.tokens[pk], false)
    ensures !CatalogMark(s.rows, s.walks[rk].patch, s.walks[rk].page[pk], s.tokens[pk], false)
  {
    assert WalkSane(w, s, rk, s.walks[rk]) && TokenSane(w, s.rows, pk, s.tokens[pk]);
  }

  /** Marks do not stay: the next put, and the next propagation of a row that brings it as it stands to the
      entry as it was read, clear the marks for what they write. */
  lemma MarksAreCleared(w: World, s: State, pk: TokenKey, rk: RowKey)
    requires Sane(w, s) && pk.ClientKidPurpose?
    ensures pk in s.joins && s.joins[pk].step == 3 ==> Unmarked(Step(w, s, Advance(pk)).marks, pk)
    ensures rk in s.walks && s.walks[rk].unread == 0 && Fresh(s, s.walks[rk], pk) ==>
              var marks := Step(w, s, Update(rk, pk)).marks;
              && (rk.OfPurpose? ==> pk !in marks.purpose)
              && (rk.OfAgreement? && s.walks[rk].patch.AgreementPatch? ==>
                    pk !in marks.agreement && pk !in marks.catalog)
              && (rk.OfDescriptor? ==> pk !in marks.catalog)
  {
    if rk in s.walks && Fresh(s, s.walks[rk], pk) {
      assert WalkSane(w, s, rk, s.walks[rk]) && TokenSane(w, s.rows, pk, s.tokens[pk]);
    }
  }

  lemma SparedIsInTime(w: World, s: State, a: Action, pk: TokenKey, o: Watch)
    requires Sane(w, s) && pk.ClientKidPurpose? && Races(w, s, pk) && Enabled(w, s, a)
    requires Tracks(s, pk, o) && Spares(w, s, a, pk, o)
    ensures InTime(s, a, pk)
  {
    if a == Advance(pk) && s.joins[pk].step == 7 {
      OneWriteIsInTime(w, s, pk);
    }
    if a.Update? && a.pk == pk {
      FreshUpdateIsInTime(w, s, a.rk, pk);
    }
  }

  lemma {:induction false} SparedRunsAreInTime(w: World, s: State, actions: seq<Action>, pk: TokenKey, o: Watch)
    requires Valid(w, s, actions) && Sane(w, s) && pk.ClientKidPurpose? && Races(w, s, pk) && Tracks(s, pk, o)
    requires OneWriteAtMost(w, s, actions, pk, o)
    decreases |actions|
    ensures AlwaysInTime(w, s, actions, pk)
  {
    if actions != [] {
      SparedIsInTime(w, s, actions[0], pk, o);
      StepKeepsSane(w, s, actions[0]);
      StepKeepsRaces(w, s, actions[0], pk);
      StepIsTracked(w, s, actions[0], pk, o);
      SparedRunsAreInTime(w, Step(w, s, actions[0]), actions[1..], pk, Watched(w, actions[0], pk, o));
    }
  }

  /** The promise of the second retrieval.  Start at rest and interleave any joins and upstream handlers,
      such that each join of the entry sees at most one write of its rows, whichever row and whenever; once
      all is done, the entry shows its three rows and its keys lead to them. */
  lemma OneWriteIsRepaired(w: World, j: Journal, s: State, actions: seq<Action>, pk: TokenKey)
    requires AtRest(w, j, s) && Valid(w, s, actions) && pk.ClientKidPurpose?
    requires OneWriteAtMost(w, s, actions, pk, IDLE)
    requires Exec(w, s, actions).walks == map[] && !Busy(Exec(w, s, actions), pk)
    requires pk in Exec(w, s, actions).tokens && Exec(w, s, actions).tokens[pk].ConsumerEntry?
    requires pk.purpose in Exec(w, s, actions).rows.purposes
    ensures var t := Exec(w, s, actions); var e, k := t.tokens[pk], w.home(pk.purpose);
            && e.purposeState == Some(t.rows.purposes[pk.purpose].state)
            && e.purposeVersionId == Some(t.rows.purposes[pk.purpose].versionId)
            && e.agreementKey == Some(k)
            && if k !in t.rows.agreements then e.agreementState.None? && e.descriptorKey.None?
               else
                 var d := DescriptorKey(k.eservice, t.rows.agreements[k].descriptor);
                 && e.agreementState == Some(t.rows.agreements[k].state) && e.descriptorKey == Some(d)
                 && (d in t.rows.descriptors ==> e.descriptorState == Some(t.rows.descriptors[d].state))
  {
    RestSatisfiesRaces(w, j, s, pk);
    SparedRunsAreInTime(w, s, actions, pk, IDLE);
    InTimeRunsAreRight(w, j, s, actions, pk);
  }
}
