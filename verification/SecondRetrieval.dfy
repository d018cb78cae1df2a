/** The insertion of entries against concurrent upstream writers, one DynamoDB call at a time.  The
    authorization writer reads the three rows, puts the entry, reads the rows again and repairs the
    entry; each upstream writer writes its row and then walks the index page by page. */
module SecondRetrieval {
  import opened Wrappers
  import opened Domain
  import opened Tables
  import opened AuthorizationWriter
  import opened Coherence

  /** Writes to an upstream row between a join's first read of it and the join's final update. */
  datatype Window = Quiet | OneWrite | Disturbed

  /** One entry being joined.  `step` counts the calls made: three reads, the put, three reads, the
      final update.  The windows count writes since the first read of each row; `lateAgreement` and
      `lateCatalog` record a write since the second read, `moved` that the agreement came to be on
      another descriptor since the first read of the agreement row. */
  datatype Join = Join(
    consumer: TenantId,
    pem: string,
    step: nat,
    first: Retrieved,
    second: Retrieved,
    onPurpose: Window,
    onAgreement: Window,
    onCatalog: Window,
    lateAgreement: bool,
    lateCatalog: bool,
    moved: bool)

  const NOTHING_READ := Retrieved(None, None, None)

  function NewJoin(consumer: TenantId, pem: string): Join {
    Join(consumer, pem, 0, NOTHING_READ, NOTHING_READ, Quiet, Quiet, Quiet, false, false, false)
  }

  datatype RowKey =
    | OfPurpose(purpose: PurposeId)
    | OfAgreement(agreement: AgreementKey)
    | OfDescriptor(descriptor: DescriptorKey)

  /** A propagation under way: whether keys ranked above the cursor are still to be queried, the entries
      of the current page still to update, as they were read, and how many rows are still to be read
      before that (two, for a page of the join walk of a purpose). */
  datatype Walk = Walk(patch: Patch, cursor: Option<int>, more: bool, page: map<TokenKey, TokenEntry>, unread: nat)

  /** The entries whose purpose, agreement or descriptor columns were last written in a way that the
      protocol does not answer for: by a final update that came out of time, or by a propagation that
      carried an outdated row or left outdated columns alone.  The next put, and the next update of a
      propagation that is in time, take the entry out again. */
  datatype Marks = Marks(purpose: set<TokenKey>, agreement: set<TokenKey>, catalog: set<TokenKey>)

  const NO_MARKS := Marks({}, {}, {})

  datatype State = State(
    rows: Rows,
    tokens: Tokens,
    joins: map<TokenKey, Join>,
    walks: map<RowKey, Walk>,
    marks: Marks)

  /** The `catalog` of an agreement's walk is what its handler read, at whatever time it did.  A join may
      begin anew, and a walk restart, at any time: then the attempt before has crashed. */
  datatype Action =
    | Begin(pk: TokenKey, pem: string)
    | Advance(pk: TokenKey)
    | ActivatePurpose(p: PurposeId, purposeRow: PurposeRow)
    | ChangePurpose(p: PurposeId, purposeRow: PurposeRow)
    | ArchivePurpose(p: PurposeId, versionId: PurposeVersionId)
    | ActivateAgreement(k: AgreementKey, agreementRow: AgreementRow, catalog: Option<CatalogRow>)
    | RewalkAgreement(k: AgreementKey, catalog: Option<CatalogRow>)
    | ChangeAgreement(k: AgreementKey, state: ItemState)
    | PublishDescriptor(d: DescriptorKey, catalogRow: CatalogRow)
    | ChangeDescriptor(d: DescriptorKey, state: ItemState)
    | DeleteDescriptor(d: DescriptorKey, state: ItemState)
    | Page(rk: RowKey, last: Option<int>)
    | ReadRow(rk: RowKey)
    | Update(rk: RowKey, pk: TokenKey)
    | Finish(rk: RowKey)
    | Restart(rk: RowKey, catalog: Option<CatalogRow>)

  /** What stays fixed during a run: the order of the table's keys, and each purpose's consumer and
      e-service. */
  datatype World = World(rank: TokenKey -> int, home: PurposeId -> AgreementKey)

  predicate InProgress(j: Join) {
    j.step < 8
  }

  /** The descriptor that an agreement row read by the join leads to. */
  function KeyRead(w: World, pk: TokenKey, agreement: Option<AgreementRow>): Option<DescriptorKey>
    requires pk.ClientKidPurpose?
  {
    if agreement.None? then None else Some(DescriptorKey(w.home(pk.purpose).eservice, agreement.value.descriptor))
  }

  function Bumped(window: Window): Window {
    if window == Quiet then OneWrite else Disturbed
  }

  predicate Ahead(w: World, cursor: Option<int>, pk: TokenKey) {
    cursor.None? || w.rank(pk) > cursor.value
  }

  predicate Enabled(w: World, s: State, a: Action) {
    match a
    case Begin(pk, _) => pk.ClientKidPurpose?
    case Advance(pk) => pk.ClientKidPurpose? && pk in s.joins && InProgress(s.joins[pk])
    case ActivatePurpose(p, row) =>
      OfPurpose(p) !in s.walks && AgreementKey(row.consumer, row.eservice) == w.home(p)
    case ChangePurpose(p, row) =>
      && OfPurpose(p) !in s.walks && p in s.rows.purposes
      && AgreementKey(row.consumer, row.eservice) == w.home(p)
    case ArchivePurpose(p, _) => OfPurpose(p) !in s.walks
    case ActivateAgreement(k, _, _) => OfAgreement(k) !in s.walks
    case RewalkAgreement(k, _) => OfAgreement(k) !in s.walks && k in s.rows.agreements
    case ChangeAgreement(k, _) => OfAgreement(k) !in s.walks && k in s.rows.agreements
    case PublishDescriptor(d, _) => OfDescriptor(d) !in s.walks
    case ChangeDescriptor(d, _) => OfDescriptor(d) !in s.walks && d in s.rows.descriptors
    case DeleteDescriptor(d, _) => OfDescriptor(d) !in s.walks
    case Page(rk, last) =>
      && rk in s.walks && s.walks[rk].page == map[] && s.walks[rk].unread == 0 && s.walks[rk].more
      && (last.Some? && s.walks[rk].cursor.Some? ==> last.value > s.walks[rk].cursor.value)
    case ReadRow(rk) => rk in s.walks && s.walks[rk].unread > 0
    case Update(rk, pk) =>
      && rk in s.walks && pk in s.walks[rk].page && s.walks[rk].unread == 0
      && pk in s.tokens && s.tokens[pk].ConsumerEntry?
    case Finish(rk) => rk in s.walks && s.walks[rk].page == map[] && s.walks[rk].unread == 0 && !s.walks[rk].more
    case Restart(rk, _) => rk in s.walks
  }

  /* ---- the authorization writer ---- */

  function ReadAgreement(s: Rows, r: Retrieved): Option<AgreementRow> {
    if r.purpose.None? then None
    else Lookup(s.agreements, AgreementKey(r.purpose.value.consumer, r.purpose.value.eservice))
  }

  function ReadCatalog(s: Rows, r: Retrieved): Option<CatalogRow> {
    if r.purpose.None? || r.agreement.None? then None
    else Lookup(s.descriptors, DescriptorKey(r.purpose.value.eservice, r.agreement.value.descriptor))
  }

  /** What the join has read after its next call. */
  function NextJoin(s: Rows, p: PurposeId, j: Join): Join {
    var j1 := j.(step := j.step + 1);
    match j.step
    case 0 => j1.(first := j.first.(purpose := Lookup(s.purposes, p)))
    case 1 => j1.(first := j.first.(agreement := ReadAgreement(s, j.first)))
    case 2 => j1.(first := j.first.(catalog := ReadCatalog(s, j.first)))
    case 4 => j1.(second := j.second.(purpose := Lookup(s.purposes, p)))
    case 5 => j1.(second := j.second.(agreement := ReadAgreement(s, j.second)))
    case 6 => j1.(second := j.second.(catalog := ReadCatalog(s, j.second)))
    case _ => j1
  }

  /** The entry after that call: the fourth puts it, the eighth repairs it if it still exists. */
  function NextEntry(j: Join, e: Option<TokenEntry>): Option<TokenEntry> {
    var built := NewEntry(j.consumer, j.pem, j.first);
    if j.step == 3 then Some(Stored(built))
    else if j.step == 7 && e.Some? && e.value.ConsumerEntry? then Some(Rechecked(built, e.value, j.second))
    else e
  }

  function WithEntry(t: Tokens, pk: TokenKey, e: Option<TokenEntry>): Tokens {
    if e.Some? then t[pk := e.value] else t
  }

  /* ---- when the final update is in time ---- */

  predicate PurposeInTime(j: Join) {
    j.onPurpose != Disturbed
  }

  /** With the purpose row found both times, the agreement row may be written once.  Found the second
      time only, the entry gets its agreement key from the final update, and the agreement row must
      stay from its second read on. */
  predicate AgreementInTime(j: Join) {
    if j.first.purpose.None? then j.second.purpose.Some? ==> !j.lateAgreement
    else if j.second.purpose.None? then j.onAgreement == Quiet
    else j.onAgreement != Disturbed
  }

  /** While the agreement stays on its descriptor the catalog row may be written once.  If the
      agreement has moved, the row first read must stay from then on, and the row of the second read
      from that read on; and the agreement columns must be in order. */
  predicate CatalogInTime(j: Join, agreementMarked: bool) {
    if j.first.agreement.None? then j.second.agreement.Some? ==> !j.lateCatalog
    else if j.second.agreement.None? then j.onCatalog == Quiet
    else
      && !agreementMarked
      && if !j.moved then j.onCatalog != Disturbed
         else
           && j.onCatalog == Quiet && !j.lateCatalog
           && (j.first.agreement.value.descriptor != j.second.agreement.value.descriptor ==> AgreementInTime(j))
  }

  function Without(m: Marks, pk: TokenKey): Marks {
    Marks(m.purpose - {pk}, m.agreement - {pk}, m.catalog - {pk})
  }

  function Marked(keys: set<TokenKey>, pk: TokenKey, mark: bool): set<TokenKey> {
    if mark then keys + {pk} else keys - {pk}
  }

  /** The put clears the marks of the entry, the final update sets those that it does not answer for. */
  function MarksAfterCall(m: Marks, pk: TokenKey, j: Join): Marks {
    if j.step == 3 then Without(m, pk)
    else if j.step == 7 then
      Marks(Marked(m.purpose, pk, pk in m.purpose || !PurposeInTime(j)),
            Marked(m.agreement, pk, pk in m.agreement || !AgreementInTime(j)),
            Marked(m.catalog, pk, pk in m.catalog || !CatalogInTime(j, pk in m.agreement)))
    else m
  }

  /* ---- the update of an entry by a propagation ---- */

  predicate ShowsAgreement(k: AgreementKey, e: TokenEntry, r: Option<AgreementRow>)
    requires e.ConsumerEntry?
  {
    match r
    case None => e.agreementState.None? && e.descriptorKey.None?
    case Some(row) =>
      e.agreementState == Some(row.state) && e.descriptorKey == Some(DescriptorKey(k.eservice, row.descriptor))
  }

  /** The join walk of a purpose writes the agreement columns if the entry, as it was read with its page,
      lacked them or had others; whatever has become of the entry since. */
  predicate WritesAgreement(patch: Patch, read: TokenEntry)
    requires patch.PurposeJoinPatch?
  {
    && patch.agreement.Some?
    && !(&& read.ConsumerEntry? && read.agreementId == Some(patch.agreement.value.agreementId)
         && ShowsAgreement(patch.home, read, patch.agreement))
  }

  /** The entry `e` after its update by a walk that read it as `read`. */
  function Updated(patch: Patch, read: TokenEntry, e: TokenEntry): TokenEntry
    requires e.ConsumerEntry?
  {
    match patch
    case PurposeJoinPatch(_, state, versionId, home, agreement, catalog) =>
      var e1 := e.(purposeState := Some(state), purposeVersionId := Some(versionId), agreementKey := Some(home));
      if agreement.None? then e1
      else
        var a := agreement.value;
        WithCatalog(if WritesAgreement(patch, read)
                    then e1.(agreementId := Some(a.agreementId), agreementState := Some(a.state),
                             descriptorKey := Some(DescriptorKey(home.eservice, a.descriptor)))
                    else e1,
                    catalog)
    case _ => Patched(patch, e)
  }

  /** An entry that stayed as it was read gets the propagation that the whole handlers are proved with. */
  lemma UpdateOfUnchanged(patch: Patch, e: TokenEntry)
    requires e.ConsumerEntry?
    ensures Updated(patch, e, e) == Patched(patch, e)
  {
  }

  /** Whether the agreement columns are marked after the update.  The join walk of a purpose may
      carry an agreement row that was written since it was read; and it may leave the columns alone of
      an entry that gets its agreement key only now. */
  predicate AgreementMark(s: Rows, patch: Patch, read: TokenEntry, e: TokenEntry, marked: bool)
    requires e.ConsumerEntry?
  {
    match patch
    case PurposeJoinPatch(_, _, _, home, agreement, _) =>
      var outdated := agreement != Lookup(s.agreements, home);
      if WritesAgreement(patch, read) then outdated
      else if e.agreementKey.Some? then marked
      else outdated || !ShowsAgreement(home, e, agreement)
    case AgreementPatch(_, _, _, _, _) => false
    case _ => marked
  }

  /** Whether the descriptor state is marked after an update of entry `e` that brings the descriptor
      key `target` and what was read of its row. */
  predicate CarriedMark(s: Rows, target: DescriptorKey, catalog: Option<CatalogRow>, e: TokenEntry, marked: bool)
    requires e.ConsumerEntry?
  {
    var row := Lookup(s.descriptors, target);
    && row.Some?
    && match catalog
       case Some(c) => c.state != row.value.state
       case None => e.descriptorKey != Some(target) || marked
  }

  /** The walk of a descriptor may reach an entry that was moved to another one since the page was read,
      and so may a join walk that leaves the agreement columns alone. */
  predicate CatalogMark(s: Rows, patch: Patch, read: TokenEntry, e: TokenEntry, marked: bool)
    requires e.ConsumerEntry?
  {
    match patch
    case PurposeJoinPatch(_, _, _, home, agreement, catalog) =>
      if agreement.None? then marked
      else
        var target := DescriptorKey(home.eservice, agreement.value.descriptor);
        if WritesAgreement(patch, read) || e.descriptorKey == Some(target)
        then CarriedMark(s, target, catalog, e, marked)
        else catalog.Some? || marked
    case AgreementPatch(_, _, _, target, catalog) => CarriedMark(s, target, catalog, e, marked)
    case DescriptorStatePatch(d, _) => e.descriptorKey != Some(d)
    case DescriptorInfoPatch(d, _, _, _) => e.descriptorKey != Some(d)
    case _ => marked
  }

  function MarksAfterUpdate(s: Rows, m: Marks, patch: Patch, pk: TokenKey, read: TokenEntry, e: TokenEntry): Marks
    requires e.ConsumerEntry?
  {
    Marks(if patch.PurposePatch? || patch.PurposeJoinPatch? then m.purpose - {pk} else m.purpose,
          Marked(m.agreement, pk, AgreementMark(s, patch, read, e, pk in m.agreement)),
          Marked(m.catalog, pk, CatalogMark(s, patch, read, e, pk in m.catalog)))
  }

  /* ---- the upstream writers ---- */

  function Begun(patch: Patch): Walk {
    Walk(patch, None, true, map[], 0)
  }

  function PurposeBumped(joins: map<TokenKey, Join>, p: PurposeId, deleted: bool): map<TokenKey, Join> {
    map pk | pk in joins ::
      var j := joins[pk];
      if pk.ClientKidPurpose? && pk.purpose == p && 1 <= j.step < 8
      then j.(onPurpose := if deleted then Disturbed else Bumped(j.onPurpose)) else j
  }

  function AgreementBumped(w: World, joins: map<TokenKey, Join>, k: AgreementKey, moves: bool): map<TokenKey, Join> {
    map pk | pk in joins ::
      var j := joins[pk];
      if pk.ClientKidPurpose? && w.home(pk.purpose) == k && 2 <= j.step < 8
      then j.(onAgreement := Bumped(j.onAgreement), lateAgreement := j.lateAgreement || j.step >= 6,
              moved := j.moved || moves)
      else j
  }

  /** A write of the row that the first read, or the second one, has led to. */
  function CatalogBumped(w: World, joins: map<TokenKey, Join>, d: DescriptorKey, deleted: bool): map<TokenKey, Join> {
    map pk | pk in joins ::
      var j := joins[pk];
      if !pk.ClientKidPurpose? then j
      else
        j.(onCatalog := if KeyRead(w, pk, j.first.agreement) != Some(d) || !(3 <= j.step < 8) then j.onCatalog
                        else if deleted then Disturbed else Bumped(j.onCatalog),
           lateCatalog := j.lateCatalog || (j.step == 7 && KeyRead(w, pk, j.second.agreement) == Some(d)))
  }

  function Written<K, V>(m: map<K, V>, k: K, v: Option<V>): map<K, V> {
    if v.Some? then m[k := v.value] else m - {k}
  }

  /** A row is written, or deleted, and its propagation begins. */
  function PurposeWritten(s: State, p: PurposeId, row: Option<PurposeRow>, patch: Patch): State {
    s.(rows := s.rows.(purposes := Written(s.rows.purposes, p, row)),
       joins := PurposeBumped(s.joins, p, row.None?),
       walks := s.walks[OfPurpose(p) := Begun(patch)])
  }

  predicate Moves(s: Rows, k: AgreementKey, row: AgreementRow) {
    k !in s.agreements || s.agreements[k].descriptor != row.descriptor
  }

  function AgreementWritten(w: World, s: State, k: AgreementKey, row: AgreementRow, patch: Patch): State {
    s.(rows := s.rows.(agreements := s.rows.agreements[k := row]),
       joins := AgreementBumped(w, s.joins, k, Moves(s.rows, k, row)),
       walks := s.walks[OfAgreement(k) := Begun(patch)])
  }

  function CatalogWritten(w: World, s: State, d: DescriptorKey, row: Option<CatalogRow>, patch: Patch): State {
    s.(rows := s.rows.(descriptors := Written(s.rows.descriptors, d, row)),
       joins := CatalogBumped(w, s.joins, d, row.None?),
       walks := s.walks[OfDescriptor(d) := Begun(patch)])
  }

  function PageOf(w: World, t: Tokens, walk: Walk, last: Option<int>): Tokens {
    map pk | pk in t && Selects(walk.patch, pk, t[pk]) && Ahead(w, walk.cursor, pk)
             && (last.None? || !Ahead(w, last, pk)) :: t[pk]
  }

  function Queried(w: World, t: Tokens, walk: Walk, last: Option<int>): Walk {
    Walk(walk.patch, last, last.Some?, PageOf(w, t, walk, last), if walk.patch.PurposeJoinPatch? then 2 else 0)
  }

  /** With every page the join walk of a purpose reads the agreement row and then the catalog row that
      it leads to. */
  function Reread(s: Rows, walk: Walk): Walk {
    var patch := walk.patch;
    if !patch.PurposeJoinPatch? then walk.(unread := 0)
    else if walk.unread == 2 then
      walk.(unread := 1, patch := patch.(agreement := Lookup(s.agreements, patch.home)))
    else
      walk.(unread := 0, patch := patch.(agreement := patch.agreement, catalog := CatalogOf(s, patch)))
  }

  /** The row of the descriptor that the agreement read with the page leads to. */
  function CatalogOf(s: Rows, patch: Patch): Option<CatalogRow>
    requires patch.PurposeJoinPatch?
  {
    if patch.agreement.None? then None
    else Lookup(s.descriptors, DescriptorKey(patch.home.eservice, patch.agreement.value.descriptor))
  }

  function WholePatch(k: AgreementKey, row: AgreementRow, catalog: Option<CatalogRow>): Patch {
    AgreementPatch(k, row.agreementId, row.state, DescriptorKey(k.eservice, row.descriptor), catalog)
  }

  /** A handler that starts over reads the catalog row again. */
  function Again(patch: Patch, catalog: Option<CatalogRow>): Patch {
    match patch
    case AgreementPatch(k, id, state, target, _) => AgreementPatch(k, id, state, target, catalog)
    case _ => patch
  }

  function Step(w: World, s: State, a: Action): State
    requires Enabled(w, s, a)
  {
    match a
    case Begin(pk, pem) => s.(joins := s.joins[pk := NewJoin(w.home(pk.purpose).consumer, pem)])
    case Advance(pk) =>
      s.(joins := s.joins[pk := NextJoin(s.rows, pk.purpose, s.joins[pk])],
         tokens := WithEntry(s.tokens, pk, NextEntry(s.joins[pk], Lookup(s.tokens, pk))),
         marks := MarksAfterCall(s.marks, pk, s.joins[pk]))
    case ActivatePurpose(p, row) =>
      PurposeWritten(s, p, Some(row), PurposeJoinPatch(p, row.state, row.versionId, w.home(p), None, None))
    case ChangePurpose(p, row) =>
      PurposeWritten(s, p, Some(row), PurposePatch(p, row.state, row.versionId))
    case ArchivePurpose(p, versionId) =>
      PurposeWritten(s, p, None, PurposePatch(p, INACTIVE, versionId))
    case ActivateAgreement(k, row, catalog) => AgreementWritten(w, s, k, row, WholePatch(k, row, catalog))
    case RewalkAgreement(k, catalog) =>
      s.(walks := s.walks[OfAgreement(k) := Begun(WholePatch(k, s.rows.agreements[k], catalog))])
    case ChangeAgreement(k, state) =>
      AgreementWritten(w, s, k, s.rows.agreements[k].(state := state), AgreementStatePatch(k, state))
    case PublishDescriptor(d, row) =>
      CatalogWritten(w, s, d, Some(row), DescriptorInfoPatch(d, row.state, row.lifespan, row.audience))
    case ChangeDescriptor(d, state) =>
      CatalogWritten(w, s, d, Some(s.rows.descriptors[d].(state := state)), DescriptorStatePatch(d, state))
    case DeleteDescriptor(d, state) =>
      CatalogWritten(w, s, d, None, DescriptorStatePatch(d, state))
    case Page(rk, last) => s.(walks := s.walks[rk := Queried(w, s.tokens, s.walks[rk], last)])
    case ReadRow(rk) => s.(walks := s.walks[rk := Reread(s.rows, s.walks[rk])])
    case Update(rk, pk) =>
      var walk := s.walks[rk];
      s.(tokens := s.tokens[pk := Updated(walk.patch, walk.page[pk], s.tokens[pk])],
         walks := s.walks[rk := walk.(page := walk.page - {pk})],
         marks := MarksAfterUpdate(s.rows, s.marks, walk.patch, pk, walk.page[pk], s.tokens[pk]))
    case Finish(rk) => s.(walks := s.walks - {rk})
    case Restart(rk, catalog) =>
      s.(walks := s.walks[rk := Begun(Again(s.walks[rk].patch, catalog))])
  }

  ghost predicate Valid(w: World, s: State, actions: seq<Action>)
    decreases |actions|
  {
    actions == [] || (Enabled(w, s, actions[0]) && Valid(w, Step(w, s, actions[0]), actions[1..]))
  }

  function Exec(w: World, s: State, actions: seq<Action>): State
    requires Valid(w, s, actions)
    decreases |actions|
  {
    if actions == [] then s else Exec(w, Step(w, s, actions[0]), actions[1..])
  }

  predicate IsJoinAction(a: Action) {
    a.Begin? || a.Advance?
  }

  predicate IsWalkAction(a: Action) {
    a.Page? || a.ReadRow? || a.Update? || a.Finish? || a.Restart?
  }

  /* ---- what every step keeps, whatever was disturbed ---- */

  predicate RetrievedSane(w: World, s: Rows, p: PurposeId, r: Retrieved) {
    && (r.purpose.Some? ==> AgreementKey(r.purpose.value.consumer, r.purpose.value.eservice) == w.home(p))
    && (r.agreement.Some? ==> r.purpose.Some? && w.home(p) in s.agreements)
    && (r.catalog.Some? ==> r.agreement.Some?)
  }

  predicate JoinSane(w: World, s: Rows, pk: TokenKey, j: Join) {
    && pk.ClientKidPurpose? && j.consumer == w.home(pk.purpose).consumer
    && RetrievedSane(w, s, pk.purpose, j.first) && RetrievedSane(w, s, pk.purpose, j.second)
    && (j.step <= 1 ==> j.first.agreement.None?) && (j.step <= 2 ==> j.first.catalog.None?)
    && (j.step <= 4 ==> j.second == NOTHING_READ) && (j.step <= 5 ==> j.second.agreement.None?)
    && (j.step <= 6 ==> j.second.catalog.None?)
  }

  /** A propagation carries its row as it stands. */
  predicate WalkSane(w: World, s: State, rk: RowKey, walk: Walk) {
    match rk
    case OfPurpose(p) =>
      && (walk.patch.PurposePatch? || walk.patch.PurposeJoinPatch?) && walk.patch.purpose == p
      && (if p in s.rows.purposes
          then walk.patch.state == s.rows.purposes[p].state && walk.patch.versionId == s.rows.purposes[p].versionId
          else walk.patch.state == INACTIVE)
      && (walk.patch.PurposeJoinPatch? ==>
            && walk.patch.home == w.home(p)
            && (walk.patch.agreement.Some? ==> w.home(p) in s.rows.agreements))
      && forall pk :: pk in walk.page ==> pk.ClientKidPurpose? && pk.purpose == p
    case OfAgreement(k) =>
      && (walk.patch.AgreementStatePatch? || walk.patch.AgreementPatch?) && walk.patch.agreementKey == k
      && k in s.rows.agreements && walk.patch.state == s.rows.agreements[k].state
      && (walk.patch.AgreementPatch? ==>
            walk.patch.target == DescriptorKey(k.eservice, s.rows.agreements[k].descriptor))
      && forall pk :: pk in walk.page ==> pk.ClientKidPurpose? && w.home(pk.purpose) == k
    case OfDescriptor(d) =>
      && (walk.patch.DescriptorStatePatch? || walk.patch.DescriptorInfoPatch?) && walk.patch.descriptorKey == d
      && (d in s.rows.descriptors ==> walk.patch.state == s.rows.descriptors[d].state)
  }

  /** The key of a complete entry can only be that of its purpose, and its agreement columns only
      come from a row. */
  predicate TokenSane(w: World, s: Rows, pk: TokenKey, e: TokenEntry) {
    e.ConsumerEntry? ==>
      && (e.agreementKey.Some? ==> pk.ClientKidPurpose? && e.agreementKey.value == w.home(pk.purpose))
      && (pk.ClientKidPurpose? && w.home(pk.purpose) !in s.agreements ==>
            e.agreementState.None? && e.descriptorKey.None?)
  }

  predicate TokensSane(w: World, s: Rows, t: Tokens) {
    forall pk :: pk in t ==> TokenSane(w, s, pk, t[pk])
  }

  predicate PurposesSane(w: World, purposes: map<PurposeId, PurposeRow>) {
    forall p :: p in purposes ==> AgreementKey(purposes[p].consumer, purposes[p].eservice) == w.home(p)
  }

  predicate JoinsSane(w: World, s: Rows, joins: map<TokenKey, Join>) {
    forall pk :: pk in joins ==> JoinSane(w, s, pk, joins[pk])
  }

  predicate WalksSane(w: World, s: State) {
    forall rk :: rk in s.walks ==> WalkSane(w, s, rk, s.walks[rk])
  }

  predicate Sane(w: World, s: State) {
    && TokensSane(w, s.rows, s.tokens) && PurposesSane(w, s.rows.purposes)
    && JoinsSane(w, s.rows, s.joins) && WalksSane(w, s)
  }

  lemma NextJoinSane(w: World, s: Rows, pk: TokenKey, j: Join)
    requires PurposesSane(w, s.purposes) && JoinSane(w, s, pk, j) && InProgress(j)
    ensures JoinSane(w, s, pk, NextJoin(s, pk.purpose, j))
  {
  }

  lemma NextEntrySane(w: World, s: Rows, pk: TokenKey, j: Join, e: Option<TokenEntry>)
    requires JoinSane(w, s, pk, j) && (e.Some? ==> TokenSane(w, s, pk, e.value))
    ensures NextEntry(j, e).Some? ==> TokenSane(w, s, pk, NextEntry(j, e).value)
  {
  }

  lemma StepKeepsPurposesSane(w: World, s: State, a: Action)
    requires PurposesSane(w, s.rows.purposes) && Enabled(w, s, a)
    ensures PurposesSane(w, Step(w, s, a).rows.purposes)
  {
  }

  lemma AgreementsStay(w: World, s: State, a: Action)
    requires Enabled(w, s, a)
    ensures s.rows.agreements.Keys <= Step(w, s, a).rows.agreements.Keys
  {
  }

  predicate SameReads(j: Join, j1: Join) {
    j1.consumer == j.consumer && j1.step == j.step && j1.first == j.first && j1.second == j.second
  }

  lemma WritesSpareReads(w: World, s: State, a: Action)
    requires Enabled(w, s, a) && !IsJoinAction(a)
    ensures Step(w, s, a).joins.Keys == s.joins.Keys
    ensures forall pk :: pk in s.joins ==> SameReads(s.joins[pk], Step(w, s, a).joins[pk])
  {
  }

  lemma WriteKeepsJoinsSane(w: World, s: State, a: Action)
    requires JoinsSane(w, s.rows, s.joins) && Enabled(w, s, a) && !IsJoinAction(a)
    ensures JoinsSane(w, Step(w, s, a).rows, Step(w, s, a).joins)
  {
    var t := Step(w, s, a);
    AgreementsStay(w, s, a);
    WritesSpareReads(w, s, a);
    SaneReadsStay(w, s.rows, t.rows, s.joins, t.joins);
  }

  lemma SaneReadsStay(w: World, s: Rows, t: Rows, before: map<TokenKey, Join>, after: map<TokenKey, Join>)
    requires JoinsSane(w, s, before) && s.agreements.Keys <= t.agreements.Keys && after.Keys == before.Keys
    requires forall pk :: pk in before ==> SameReads(before[pk], after[pk])
    ensures JoinsSane(w, t, after)
  {
    forall pk | pk in after ensures JoinSane(w, t, pk, after[pk]) {
      assert JoinSane(w, s, pk, before[pk]) && SameReads(before[pk], after[pk]);
    }
  }

  lemma StepKeepsJoinsSane(w: World, s: State, a: Action)
    requires Sane(w, s) && Enabled(w, s, a)
    ensures JoinsSane(w, Step(w, s, a).rows, Step(w, s, a).joins)
  {
    if a.Advance? {
      NextJoinSane(w, s.rows, a.pk, s.joins[a.pk]);
    } else if !a.Begin? {
      WriteKeepsJoinsSane(w, s, a);
    }
  }

  lemma StepKeepsTokensSane(w: World, s: State, a: Action)
    requires Sane(w, s) && Enabled(w, s, a)
    ensures TokensSane(w, Step(w, s, a).rows, Step(w, s, a).tokens)
  {
    AgreementsStay(w, s, a);
    if a.Advance? {
      NextEntrySane(w, s.rows, a.pk, s.joins[a.pk], Lookup(s.tokens, a.pk));
    } else if a.Update? {
      assert WalkSane(w, s, a.rk, s.walks[a.rk]) && TokenSane(w, s.rows, a.pk, s.tokens[a.pk]);
    }
  }

  lemma WalkKeepsWalkSane(w: World, s: State, a: Action, rk: RowKey)
    requires Enabled(w, s, a) && TokensSane(w, s.rows, s.tokens) && IsWalkAction(a)
    requires rk in Step(w, s, a).walks && WalkSane(w, s, rk, s.walks[rk])
    ensures WalkSane(w, Step(w, s, a), rk, Step(w, s, a).walks[rk])
  {
    if a.rk == rk {
      OwnStepKeepsWalkSane(w, s, a);
    }
  }

  lemma OwnStepKeepsWalkSane(w: World, s: State, a: Action)
    requires Enabled(w, s, a) && TokensSane(w, s.rows, s.tokens) && IsWalkAction(a) && !a.Finish?
    requires WalkSane(w, s, a.rk, s.walks[a.rk])
    ensures WalkSane(w, Step(w, s, a), a.rk, Step(w, s, a).walks[a.rk])
  {
    if a.Page? {
      PageKeepsWalkSane(w, s, a);
    }
  }

  lemma PageKeepsWalkSane(w: World, s: State, a: Action)
    requires Enabled(w, s, a) && TokensSane(w, s.rows, s.tokens) && a.Page?
    requires WalkSane(w, s, a.rk, s.walks[a.rk])
    ensures WalkSane(w, Step(w, s, a), a.rk, Step(w, s, a).walks[a.rk])
  {
    forall pk | pk in Queried(w, s.tokens, s.walks[a.rk], a.last).page ensures TokenSane(w, s.rows, pk, s.tokens[pk]) {
    }
  }

  lemma WriteKeepsWalkSane(w: World, s: State, a: Action, rk: RowKey)
    requires Enabled(w, s, a) && !IsJoinAction(a) && !IsWalkAction(a)
    requires rk in Step(w, s, a).walks && (rk in s.walks ==> WalkSane(w, s, rk, s.walks[rk]))
    ensures WalkSane(w, Step(w, s, a), rk, Step(w, s, a).walks[rk])
  {
  }

  lemma StepKeepsWalksSane(w: World, s: State, a: Action)
    requires Sane(w, s) && Enabled(w, s, a)
    ensures WalksSane(w, Step(w, s, a))
  {
    if IsWalkAction(a) {
      assert Step(w, s, a).walks.Keys <= s.walks.Keys;
    }
    forall rk | rk in Step(w, s, a).walks
      ensures WalkSane(w, Step(w, s, a), rk, Step(w, s, a).walks[rk])
    {
      if IsWalkAction(a) {
        WalkKeepsWalkSane(w, s, a, rk);
      } else if !IsJoinAction(a) {
        WriteKeepsWalkSane(w, s, a, rk);
      }
    }
  }

  lemma StepKeepsSane(w: World, s: State, a: Action)
    requires Sane(w, s) && Enabled(w, s, a)
    ensures Sane(w, Step(w, s, a))
  {
    StepKeepsPurposesSane(w, s, a);
    StepKeepsJoinsSane(w, s, a);
    StepKeepsTokensSane(w, s, a);
    StepKeepsWalksSane(w, s, a);
  }

  /** The sane facts that one entry's races need. */
  predicate SaneAt(w: World, s: State, a: Action, pk: TokenKey) {
    && PurposesSane(w, s.rows.purposes)
    && (pk in s.tokens ==> TokenSane(w, s.rows, pk, s.tokens[pk]))
    && (pk in s.joins ==> JoinSane(w, s.rows, pk, s.joins[pk]))
    && (IsWalkAction(a) && a.rk in s.walks ==> WalkSane(w, s, a.rk, s.walks[a.rk]))
  }

  /** The walk of that row has still to update the entry. */
  predicate Covered(w: World, s: State, rk: RowKey, pk: TokenKey) {
    rk in s.walks && (pk in s.walks[rk].page || (s.walks[rk].more && Ahead(w, s.walks[rk].cursor, pk)))
  }

  predicate Busy(s: State, pk: TokenKey) {
    pk in s.joins && InProgress(s.joins[pk])
  }

  /* ---- the purpose columns of one entry ---- */

  predicate ShowsPurpose(e: TokenEntry, r: Option<PurposeRow>)
    requires e.ConsumerEntry?
  {
    match r
    case None => e.purposeState != Some(ACTIVE)
    case Some(row) => e.purposeState == Some(row.state) && e.purposeVersionId == Some(row.versionId)
  }

  /** One entry `e` of a purpose whose row is `r`, its join `j`, whether a walk covers it and whether
      it is marked. */
  predicate PurposeRace(r: Option<PurposeRow>, e: Option<TokenEntry>, j: Option<Join>, covered: bool, marked: bool) {
    if j.Some? && InProgress(j.value) then
      var first, second := j.value.first.purpose, j.value.second.purpose;
      && (j.value.step == 0 ==> j.value.onPurpose == Quiet)
      && (j.value.step >= 1 && j.value.onPurpose == Quiet ==> first == r)
      && (j.value.step >= 1 && j.value.onPurpose == OneWrite ==> r.Some?)
      && (j.value.step >= 4 && j.value.onPurpose != Disturbed ==>
            && e.Some? && e.value.ConsumerEntry?
            && if j.value.step == 4 then ShowsPurpose(e.value, first) || ShowsPurpose(e.value, r)
               else || (second == r && (ShowsPurpose(e.value, first) || ShowsPurpose(e.value, r)))
                    || (second == first && (ShowsPurpose(e.value, r) || covered)))
    else
      e.Some? && e.value.ConsumerEntry? && !marked ==> ShowsPurpose(e.value, r) || covered
  }

  lemma AdvanceKeepsPurposeRace(s: Rows, p: PurposeId, e: Option<TokenEntry>, j: Join, covered: bool, marked: bool)
    requires InProgress(j) && PurposeRace(Lookup(s.purposes, p), e, Some(j), covered, marked)
    ensures PurposeRace(Lookup(s.purposes, p), NextEntry(j, e), Some(NextJoin(s, p, j)), covered,
                        marked || (j.step == 7 && !PurposeInTime(j)))
  {
    if j.step == 7 {
      FinalUpdateKeepsPurposeRace(s, p, e, j, covered, marked);
    } else if j.step == 3 {
      PutKeepsPurposeRace(s, p, e, j, covered, marked);
    } else {
      ReadKeepsPurposeRace(s, p, e, j, covered, marked);
    }
  }

  lemma PutKeepsPurposeRace(s: Rows, p: PurposeId, e: Option<TokenEntry>, j: Join, covered: bool, marked: bool)
    requires j.step == 3 && PurposeRace(Lookup(s.purposes, p), e, Some(j), covered, marked)
    ensures PurposeRace(Lookup(s.purposes, p), NextEntry(j, e), Some(NextJoin(s, p, j)), covered, marked)
  {
  }

  lemma ReadKeepsPurposeRace(s: Rows, p: PurposeId, e: Option<TokenEntry>, j: Join, covered: bool, marked: bool)
    requires j.step < 7 && j.step != 3 && PurposeRace(Lookup(s.purposes, p), e, Some(j), covered, marked)
    ensures PurposeRace(Lookup(s.purposes, p), e, Some(NextJoin(s, p, j)), covered, marked)
  {
  }

  lemma FinalUpdateKeepsPurposeRace(s: Rows, p: PurposeId, e: Option<TokenEntry>, j: Join, covered: bool, marked: bool)
    requires j.step == 7 && PurposeRace(Lookup(s.purposes, p), e, Some(j), covered, marked)
    ensures PurposeRace(Lookup(s.purposes, p), NextEntry(j, e), Some(NextJoin(s, p, j)), covered,
                        marked || !PurposeInTime(j))
  {
  }

  predicate PurposeRaceAt(w: World, s: State, pk: TokenKey)
    requires pk.ClientKidPurpose?
  {
    PurposeRace(Lookup(s.rows.purposes, pk.purpose), Lookup(s.tokens, pk), Lookup(s.joins, pk),
                Covered(w, s, OfPurpose(pk.purpose), pk), pk in s.marks.purpose)
  }

  lemma JoinKeepsPurposeRace(w: World, s: State, a: Action, pk: TokenKey)
    requires Enabled(w, s, a) && pk.ClientKidPurpose? && PurposeRaceAt(w, s, pk) && IsJoinAction(a)
    ensures PurposeRaceAt(w, Step(w, s, a), pk)
  {
    if a.Advance? && a.pk == pk {
      AdvanceKeepsPurposeRace(s.rows, pk.purpose, Lookup(s.tokens, pk), s.joins[pk],
                              Covered(w, s, OfPurpose(pk.purpose), pk), pk in s.marks.purpose);
    }
  }

  lemma PurposeWriteKeepsPurposeRace(w: World, s: State, p: PurposeId, row: Option<PurposeRow>, patch: Patch,
                                     pk: TokenKey)
    requires OfPurpose(p) !in s.walks && pk.ClientKidPurpose? && PurposeRaceAt(w, s, pk)
    ensures PurposeRaceAt(w, PurposeWritten(s, p, row, patch), pk)
  {
  }

  lemma AgreementWriteKeepsPurposeRace(w: World, s: State, k: AgreementKey, row: AgreementRow, patch: Patch,
                                       pk: TokenKey)
    requires pk.ClientKidPurpose? && PurposeRaceAt(w, s, pk)
    ensures PurposeRaceAt(w, AgreementWritten(w, s, k, row, patch), pk)
  {
  }

  lemma CatalogWriteKeepsPurposeRace(w: World, s: State, d: DescriptorKey, row: Option<CatalogRow>, patch: Patch,
                                     pk: TokenKey)
    requires pk.ClientKidPurpose? && PurposeRaceAt(w, s, pk)
    ensures PurposeRaceAt(w, CatalogWritten(w, s, d, row, patch), pk)
  {
  }

  lemma WalkKeepsPurposeRace(w: World, s: State, a: Action, pk: TokenKey)
    requires Enabled(w, s, a) && pk.ClientKidPurpose? && PurposeRaceAt(w, s, pk) && IsWalkAction(a)
    requires WalkSane(w, s, a.rk, s.walks[a.rk])
    ensures PurposeRaceAt(w, Step(w, s, a), pk)
  {
    if a.Update? && a.pk == pk {
      OwnUpdateKeepsPurposeRace(w, s, a, pk);
    }
  }

  lemma OwnUpdateKeepsPurposeRace(w: World, s: State, a: Action, pk: TokenKey)
    requires Enabled(w, s, a) && pk.ClientKidPurpose? && PurposeRaceAt(w, s, pk) && a.Update? && a.pk == pk
    requires WalkSane(w, s, a.rk, s.walks[a.rk])
    ensures PurposeRaceAt(w, Step(w, s, a), pk)
  {
  }

  /* ---- the agreement key of one entry ---- */

  /** A join walk of the purpose, which brings the agreement key, has still to update the entry. */
  predicate Joining(w: World, s: State, pk: TokenKey)
    requires pk.ClientKidPurpose?
  {
    Covered(w, s, OfPurpose(pk.purpose), pk) && s.walks[OfPurpose(pk.purpose)].patch.PurposeJoinPatch?
  }

  /** An entry lacks its agreement key only while it still has to get it. */
  predicate KeyRaceAt(w: World, s: State, pk: TokenKey)
    requires pk.ClientKidPurpose?
  {
    pk in s.tokens && s.tokens[pk].ConsumerEntry? && s.tokens[pk].agreementKey.None? ==>
      if Busy(s, pk) then
        var j := s.joins[pk];
        j.step >= 4 ==>
          && j.first.purpose.None?
          && (j.step >= 5 && j.second.purpose.None? ==> pk.purpose !in s.rows.purposes || Joining(w, s, pk))
      else pk.purpose !in s.rows.purposes || Joining(w, s, pk)
  }

  lemma JoinKeepsKeyRace(w: World, s: State, a: Action, pk: TokenKey)
    requires SaneAt(w, s, a, pk) && Enabled(w, s, a) && pk.ClientKidPurpose? && KeyRaceAt(w, s, pk)
    requires IsJoinAction(a)
    ensures KeyRaceAt(w, Step(w, s, a), pk)
  {
  }

  lemma WalkKeepsKeyRace(w: World, s: State, a: Action, pk: TokenKey)
    requires SaneAt(w, s, a, pk) && Enabled(w, s, a) && pk.ClientKidPurpose? && KeyRaceAt(w, s, pk)
    requires IsWalkAction(a)
    ensures KeyRaceAt(w, Step(w, s, a), pk)
  {
    if a.Update? {
      UpdateKeepsKeyRace(w, s, a, pk);
    } else {
      PageKeepsKeyRace(w, s, a, pk);
    }
  }

  lemma UpdateKeepsKeyRace(w: World, s: State, a: Action, pk: TokenKey)
    requires SaneAt(w, s, a, pk) && Enabled(w, s, a) && pk.ClientKidPurpose? && KeyRaceAt(w, s, pk)
    requires a.Update?
    ensures KeyRaceAt(w, Step(w, s, a), pk)
  {
  }

  lemma PageKeepsKeyRace(w: World, s: State, a: Action, pk: TokenKey)
    requires SaneAt(w, s, a, pk) && Enabled(w, s, a) && pk.ClientKidPurpose? && KeyRaceAt(w, s, pk)
    requires IsWalkAction(a) && !a.Update?
    ensures KeyRaceAt(w, Step(w, s, a), pk)
  {
  }

  lemma PurposeWriteKeepsKeyRace(w: World, s: State, p: PurposeId, row: Option<PurposeRow>, patch: Patch, pk: TokenKey)
    requires OfPurpose(p) !in s.walks && pk.ClientKidPurpose? && KeyRaceAt(w, s, pk)
    requires p in s.rows.purposes || row.None? || patch.PurposeJoinPatch?
    ensures KeyRaceAt(w, PurposeWritten(s, p, row, patch), pk)
  {
  }

  lemma AgreementWriteKeepsKeyRace(w: World, s: State, k: AgreementKey, row: AgreementRow, patch: Patch, pk: TokenKey)
    requires pk.ClientKidPurpose? && KeyRaceAt(w, s, pk)
    ensures KeyRaceAt(w, AgreementWritten(w, s, k, row, patch), pk)
  {
  }

  lemma CatalogWriteKeepsKeyRace(w: World, s: State, d: DescriptorKey, row: Option<CatalogRow>, patch: Patch,
                                 pk: TokenKey)
    requires pk.ClientKidPurpose? && KeyRaceAt(w, s, pk)
    ensures KeyRaceAt(w, CatalogWritten(w, s, d, row, patch), pk)
  {
  }

  /* ---- the agreement columns of one entry ---- */

  /** The entry shows the row, or a walk is about to bring what it lacks: a walk that carries only the
      state is of use to an entry with the right descriptor key. */
  predicate Upheld(k: AgreementKey, e: TokenEntry, r: Option<AgreementRow>, covered: bool, stateOnly: bool)
    requires e.ConsumerEntry?
  {
    || ShowsAgreement(k, e, r)
    || (covered && r.Some? && (stateOnly ==> e.descriptorKey == Some(DescriptorKey(k.eservice, r.value.descriptor))))
  }

  predicate SameDescriptor(read: Option<AgreementRow>, r: Option<AgreementRow>) {
    read.Some? ==> r.Some? && read.value.descriptor == r.value.descriptor
  }

  /** What a join under way has read of the agreement row `r`; `stateOnly` says that a walk of the row
      carries its state only. */
  predicate AgreementReads(r: Option<AgreementRow>, j: Join, stateOnly: bool) {
    var first, second := j.first, j.second;
    && (j.step <= 1 ==> j.onAgreement == Quiet)
    && (j.step <= 5 ==> !j.lateAgreement)
    && (!j.moved ==> SameDescriptor(first.agreement, r) && SameDescriptor(second.agreement, r))
    && (j.step >= 2 && first.purpose.Some? && j.onAgreement == Quiet ==> first.agreement == r)
    && (j.step >= 2 && first.purpose.Some? && j.onAgreement == OneWrite ==>
          r.Some? && (stateOnly ==> first.agreement.Some? && SameDescriptor(first.agreement, r)))
    && (j.step >= 6 && second.purpose.Some? && !j.lateAgreement ==> second.agreement == r)
    && (j.step >= 6 && first.purpose.Some? && second.purpose.Some? && j.onAgreement != Disturbed ==>
          second.agreement == r || second.agreement == first.agreement)
  }

  /** What the entry put by a join under way shows, as long as it is not marked. */
  predicate AgreementPut(k: AgreementKey, r: Option<AgreementRow>, e: TokenEntry, j: Join, covered: bool,
                         stateOnly: bool)
    requires e.ConsumerEntry?
  {
    if j.first.purpose.None? then e.agreementKey.None? || Upheld(k, e, r, covered, stateOnly)
    else
      && (j.onAgreement != Disturbed ==>
            && (ShowsAgreement(k, e, j.first.agreement) || ShowsAgreement(k, e, r))
            && (j.step >= 6 && j.second.purpose.Some? && j.second.agreement == j.first.agreement ==>
                  Upheld(k, e, r, covered, stateOnly)))
      && (!j.moved && j.first.agreement.Some? ==>
            e.descriptorKey == Some(DescriptorKey(k.eservice, j.first.agreement.value.descriptor)))
  }

  /** One entry `e` of a purpose whose agreement key is `k`: `r` is the agreement row, `j` the join of
      the entry. */
  predicate AgreementRace(k: AgreementKey, r: Option<AgreementRow>, e: Option<TokenEntry>, j: Option<Join>,
                          covered: bool, stateOnly: bool, marked: bool)
  {
    if j.Some? && InProgress(j.value) then
      && AgreementReads(r, j.value, stateOnly)
      && (j.value.step >= 4 ==>
            && e.Some? && e.value.ConsumerEntry?
            && (!marked ==> AgreementPut(k, r, e.value, j.value, covered, stateOnly)))
    else
      e.Some? && e.value.ConsumerEntry? && !marked ==>
        e.value.agreementKey.None? || Upheld(k, e.value, r, covered, stateOnly)
  }

  predicate StateOnly(s: State, k: AgreementKey) {
    OfAgreement(k) in s.walks && s.walks[OfAgreement(k)].patch.AgreementStatePatch?
  }

  predicate AgreementRaceAt(w: World, s: State, pk: TokenKey)
    requires pk.ClientKidPurpose?
  {
    var k := w.home(pk.purpose);
    AgreementRace(k, Lookup(s.rows.agreements, k), Lookup(s.tokens, pk), Lookup(s.joins, pk),
                  Covered(w, s, OfAgreement(k), pk), StateOnly(s, k), pk in s.marks.agreement)
  }

  /** The reads of the entry's own join. */
  lemma ReadKeepsAgreementReads(w: World, s: Rows, pk: TokenKey, j: Join, stateOnly: bool)
    requires InProgress(j) && JoinSane(w, s, pk, j) && PurposesSane(w, s.purposes)
    requires AgreementReads(Lookup(s.agreements, w.home(pk.purpose)), j, stateOnly)
    ensures AgreementReads(Lookup(s.agreements, w.home(pk.purpose)), NextJoin(s, pk.purpose, j), stateOnly)
  {
  }

  /** The put, and the three reads after it. */
  lemma CallKeepsAgreementPut(w: World, s: Rows, pk: TokenKey, e: Option<TokenEntry>, j: Join,
                              covered: bool, stateOnly: bool, marked: bool)
    requires 3 <= j.step < 7 && JoinSane(w, s, pk, j) && PurposesSane(w, s.purposes)
    requires AgreementRace(w.home(pk.purpose), Lookup(s.agreements, w.home(pk.purpose)), e, Some(j),
                           covered, stateOnly, marked)
    ensures NextEntry(j, e).Some? && NextEntry(j, e).value.ConsumerEntry?
    ensures (j.step > 3 ==> !marked) ==>
              AgreementPut(w.home(pk.purpose), Lookup(s.agreements, w.home(pk.purpose)), NextEntry(j, e).value,
                           NextJoin(s, pk.purpose, j), covered, stateOnly)
  {
  }

  /** The final update. */
  lemma FinalUpdateUpholds(w: World, s: Rows, pk: TokenKey, e: TokenEntry, j: Join, covered: bool, stateOnly: bool)
    requires j.step == 7 && JoinSane(w, s, pk, j) && TokenSane(w, s, pk, e) && e.ConsumerEntry?
    requires AgreementReads(Lookup(s.agreements, w.home(pk.purpose)), j, stateOnly) && AgreementInTime(j)
    requires AgreementPut(w.home(pk.purpose), Lookup(s.agreements, w.home(pk.purpose)), e, j, covered, stateOnly)
    ensures var e1 := Rechecked(NewEntry(j.consumer, j.pem, j.first), e, j.second);
            || e1.agreementKey.None?
            || Upheld(w.home(pk.purpose), e1, Lookup(s.agreements, w.home(pk.purpose)), covered, stateOnly)
  {
  }

  lemma AdvanceKeepsAgreementRace(w: World, s: Rows, pk: TokenKey, e: Option<TokenEntry>, j: Join,
                                  covered: bool, stateOnly: bool, marked: bool)
    requires InProgress(j) && JoinSane(w, s, pk, j) && PurposesSane(w, s.purposes)
    requires e.Some? ==> TokenSane(w, s, pk, e.value)
    requires AgreementRace(w.home(pk.purpose), Lookup(s.agreements, w.home(pk.purpose)), e, Some(j),
                           covered, stateOnly, marked)
    ensures AgreementRace(w.home(pk.purpose), Lookup(s.agreements, w.home(pk.purpose)), NextEntry(j, e),
                          Some(NextJoin(s, pk.purpose, j)), covered, stateOnly,
                          if j.step == 3 then false else marked || (j.step == 7 && !AgreementInTime(j)))
  {
    ReadKeepsAgreementReads(w, s, pk, j, stateOnly);
    if j.step == 7 {
      FinalUpdateKeepsAgreementRace(w, s, pk, e, j, covered, stateOnly, marked);
    } else if j.step >= 3 {
      CallKeepsAgreementPut(w, s, pk, e, j, covered, stateOnly, marked);
    }
  }

  lemma FinalUpdateKeepsAgreementRace(w: World, s: Rows, pk: TokenKey, e: Option<TokenEntry>, j: Join,
                                      covered: bool, stateOnly: bool, marked: bool)
    requires j.step == 7 && JoinSane(w, s, pk, j) && (e.Some? ==> TokenSane(w, s, pk, e.value))
    requires AgreementRace(w.home(pk.purpose), Lookup(s.agreements, w.home(pk.purpose)), e, Some(j),
                           covered, stateOnly, marked)
    ensures AgreementRace(w.home(pk.purpose), Lookup(s.agreements, w.home(pk.purpose)), NextEntry(j, e),
                          Some(NextJoin(s, pk.purpose, j)), covered, stateOnly, marked || !AgreementInTime(j))
  {
    if !marked && AgreementInTime(j) {
      FinalUpdateUpholds(w, s, pk, e.value, j, covered, stateOnly);
    }
  }

  lemma JoinKeepsAgreementRace(w: World, s: State, a: Action, pk: TokenKey)
    requires SaneAt(w, s, a, pk) && Enabled(w, s, a) && pk.ClientKidPurpose? && AgreementRaceAt(w, s, pk)
    requires IsJoinAction(a)
    ensures AgreementRaceAt(w, Step(w, s, a), pk)
  {
    if a.Advance? && a.pk == pk {
      OwnCallKeepsAgreementRace(w, s, a, pk);
    }
  }

  lemma OwnCallKeepsAgreementRace(w: World, s: State, a: Action, pk: TokenKey)
    requires SaneAt(w, s, a, pk) && Enabled(w, s, a) && pk.ClientKidPurpose? && AgreementRaceAt(w, s, pk)
    requires a.Advance? && a.pk == pk
    ensures AgreementRaceAt(w, Step(w, s, a), pk)
  {
    var k := w.home(pk.purpose);
    var j, e, t := s.joins[pk], Lookup(s.tokens, pk), Step(w, s, a);
    AdvanceKeepsAgreementRace(w, s.rows, pk, e, j, Covered(w, s, OfAgreement(k), pk), StateOnly(s, k),
                              pk in s.marks.agreement);
    assert Lookup(t.tokens, pk) == NextEntry(j, e) && Lookup(t.joins, pk) == Some(NextJoin(s.rows, pk.purpose, j));
    assert Covered(w, t, OfAgreement(k), pk) == Covered(w, s, OfAgreement(k), pk) && StateOnly(t, k) == StateOnly(s, k);
  }

  lemma PurposeWriteKeepsAgreementRace(w: World, s: State, p: PurposeId, row: Option<PurposeRow>, patch: Patch,
                                       pk: TokenKey)
    requires pk.ClientKidPurpose? && AgreementRaceAt(w, s, pk)
    ensures AgreementRaceAt(w, PurposeWritten(s, p, row, patch), pk)
  {
  }

  lemma AgreementWriteKeepsAgreementRace(w: World, s: State, k: AgreementKey, row: AgreementRow, patch: Patch,
                                         pk: TokenKey)
    requires OfAgreement(k) !in s.walks && pk.ClientKidPurpose? && AgreementRaceAt(w, s, pk)
    requires pk in s.joins ==> JoinSane(w, s.rows, pk, s.joins[pk])
    requires pk in s.tokens ==> TokenSane(w, s.rows, pk, s.tokens[pk])
    requires patch.AgreementStatePatch? ==> !Moves(s.rows, k, row)
    ensures AgreementRaceAt(w, AgreementWritten(w, s, k, row, patch), pk)
  {
  }

  lemma CatalogWriteKeepsAgreementRace(w: World, s: State, d: DescriptorKey, row: Option<CatalogRow>, patch: Patch,
                                       pk: TokenKey)
    requires pk.ClientKidPurpose? && AgreementRaceAt(w, s, pk)
    ensures AgreementRaceAt(w, CatalogWritten(w, s, d, row, patch), pk)
  {
  }

  lemma RewalkKeepsAgreementRace(w: World, s: State, a: Action, pk: TokenKey)
    requires Enabled(w, s, a) && pk.ClientKidPurpose? && AgreementRaceAt(w, s, pk) && a.RewalkAgreement?
    ensures AgreementRaceAt(w, Step(w, s, a), pk)
  {
  }

  lemma PageKeepsAgreementRace(w: World, s: State, a: Action, pk: TokenKey)
    requires Enabled(w, s, a) && pk.ClientKidPurpose? && AgreementRaceAt(w, s, pk) && !a.Update?
    requires SaneAt(w, s, a, pk) && KeyRaceAt(w, s, pk) && IsWalkAction(a)
    ensures AgreementRaceAt(w, Step(w, s, a), pk)
  {
    if a.Page? {
      QueryKeepsAgreementRace(w, s, a, pk);
    } else {
      OtherStepKeepsAgreementRace(w, s, a, pk);
    }
  }

  lemma QueryKeepsAgreementRace(w: World, s: State, a: Action, pk: TokenKey)
    requires Enabled(w, s, a) && pk.ClientKidPurpose? && AgreementRaceAt(w, s, pk) && a.Page?
    requires SaneAt(w, s, a, pk) && KeyRaceAt(w, s, pk)
    ensures AgreementRaceAt(w, Step(w, s, a), pk)
  {
  }

  lemma OtherStepKeepsAgreementRace(w: World, s: State, a: Action, pk: TokenKey)
    requires Enabled(w, s, a) && pk.ClientKidPurpose? && AgreementRaceAt(w, s, pk) && !a.Update? && !a.Page?
    requires SaneAt(w, s, a, pk) && KeyRaceAt(w, s, pk) && IsWalkAction(a)
    ensures AgreementRaceAt(w, Step(w, s, a), pk)
  {
  }

  lemma UpdateKeepsAgreementRace(w: World, s: State, a: Action, pk: TokenKey)
    requires Enabled(w, s, a) && pk.ClientKidPurpose? && AgreementRaceAt(w, s, pk) && a.Update?
    requires SaneAt(w, s, a, pk) && KeyRaceAt(w, s, pk)
    ensures AgreementRaceAt(w, Step(w, s, a), pk)
  {
    if a.pk == pk {
      OwnUpdateKeepsAgreementRace(w, s, a, pk);
    }
  }

  lemma OwnUpdateKeepsAgreementRace(w: World, s: State, a: Action, pk: TokenKey)
    requires Enabled(w, s, a) && pk.ClientKidPurpose? && AgreementRaceAt(w, s, pk) && a.Update? && a.pk == pk
    requires SaneAt(w, s, a, pk) && KeyRaceAt(w, s, pk)
    ensures AgreementRaceAt(w, Step(w, s, a), pk)
  {
    if s.walks[a.rk].patch.PurposeJoinPatch? {
      JoinWalkKeepsAgreementRace(w, s, a, pk);
    } else {
      OwnWalkKeepsAgreementRace(w, s, a, pk);
    }
  }

  lemma OwnWalkKeepsAgreementRace(w: World, s: State, a: Action, pk: TokenKey)
    requires Enabled(w, s, a) && pk.ClientKidPurpose? && AgreementRaceAt(w, s, pk) && a.Update? && a.pk == pk
    requires SaneAt(w, s, a, pk) && !s.walks[a.rk].patch.PurposeJoinPatch?
    ensures AgreementRaceAt(w, Step(w, s, a), pk)
  {
    var k, t := w.home(pk.purpose), Step(w, s, a);
    OwnWalkUpdate(k, Lookup(s.rows.agreements, k), s.walks[a.rk].patch, s.tokens[pk], Lookup(s.joins, pk),
                  Covered(w, s, OfAgreement(k), pk), Covered(w, t, OfAgreement(k), pk), StateOnly(s, k),
                  pk in s.marks.agreement);
    assert StateOnly(t, k) == StateOnly(s, k);
  }

  predicate OfOwnAgreement(patch: Patch) {
    patch.AgreementStatePatch? || patch.AgreementPatch?
  }

  /** The other walks leave the agreement columns alone, but for the agreement's own. */
  lemma OwnWalkUpdate(k: AgreementKey, r: Option<AgreementRow>, patch: Patch, e: TokenEntry, j: Option<Join>,
                      covered: bool, covered1: bool, stateOnly: bool, marked: bool)
    requires e.ConsumerEntry? && !patch.PurposeJoinPatch? && AgreementRace(k, r, Some(e), j, covered, stateOnly, marked)
    requires if OfOwnAgreement(patch) then r.Some? && patch.state == r.value.state else covered1 == covered
    requires patch.AgreementStatePatch? ==> stateOnly
    requires patch.AgreementPatch? ==> patch.target == DescriptorKey(k.eservice, r.value.descriptor)
    ensures AgreementRace(k, r, Some(Patched(patch, e)), j, covered1, stateOnly, !patch.AgreementPatch? && marked)
  {
  }

  lemma JoinWalkKeepsAgreementRace(w: World, s: State, a: Action, pk: TokenKey)
    requires Enabled(w, s, a) && pk.ClientKidPurpose? && AgreementRaceAt(w, s, pk) && a.Update? && a.pk == pk
    requires SaneAt(w, s, a, pk) && KeyRaceAt(w, s, pk) && s.walks[a.rk].patch.PurposeJoinPatch?
    ensures AgreementRaceAt(w, Step(w, s, a), pk)
  {
    var k, walk, t := w.home(pk.purpose), s.walks[a.rk], Step(w, s, a);
    JoinWalkUpdate(w, s.rows, pk, walk.patch, walk.page[pk], s.tokens[pk], Lookup(s.joins, pk),
                   Covered(w, s, OfAgreement(k), pk), StateOnly(s, k), pk in s.marks.agreement);
    assert Covered(w, t, OfAgreement(k), pk) == Covered(w, s, OfAgreement(k), pk) && StateOnly(t, k) == StateOnly(s, k);
  }

  /** Either the columns are written as they were read, or they stay, and then the entry had its key or
      gets it only now. */
  lemma JoinWalkUpdate(w: World, s: Rows, pk: TokenKey, patch: Patch, read: TokenEntry, e: TokenEntry, j: Option<Join>,
                       covered: bool, stateOnly: bool, marked: bool)
    requires pk.ClientKidPurpose? && patch.PurposeJoinPatch? && patch.home == w.home(pk.purpose) && e.ConsumerEntry?
    requires TokenSane(w, s, pk, e)
    requires j.Some? && InProgress(j.value) && j.value.step >= 4 && j.value.first.purpose.Some? ==> e.agreementKey.Some?
    requires AgreementRace(w.home(pk.purpose), Lookup(s.agreements, w.home(pk.purpose)), Some(e), j,
                           covered, stateOnly, marked)
    ensures AgreementRace(w.home(pk.purpose), Lookup(s.agreements, w.home(pk.purpose)),
                          Some(Updated(patch, read, e)), j, covered, stateOnly,
                          AgreementMark(s, patch, read, e, marked))
  {
  }

  /* ---- the descriptor state of one entry ---- */

  predicate ShowsDescriptor(e: TokenEntry, r: Option<CatalogRow>)
    requires e.ConsumerEntry?
  {
    r.Some? ==> e.descriptorState == Some(r.value.state)
  }

  /** The entry shows the row of its own descriptor, or that row's walk has still to update it. */
  predicate Current(w: World, s: State, pk: TokenKey, e: TokenEntry)
    requires e.ConsumerEntry?
  {
    e.descriptorKey.Some? ==>
      || ShowsDescriptor(e, Lookup(s.rows.descriptors, e.descriptorKey.value))
      || Covered(w, s, OfDescriptor(e.descriptorKey.value), pk)
  }

  /** What a join under way has read of the catalog rows that its two agreement reads led to. */
  predicate CatalogReads(w: World, s: Rows, pk: TokenKey, j: Join)
    requires pk.ClientKidPurpose?
  {
    var d, d2 := KeyRead(w, pk, j.first.agreement), KeyRead(w, pk, j.second.agreement);
    && (j.step <= 2 ==> j.onCatalog == Quiet)
    && (j.step <= 6 ==> !j.lateCatalog)
    && (j.step >= 3 && d.Some? && j.onCatalog == Quiet ==> j.first.catalog == Lookup(s.descriptors, d.value))
    && (j.step >= 3 && d.Some? && j.onCatalog == OneWrite ==> d.value in s.descriptors)
    && (j.step >= 7 && d2.Some? && !j.lateCatalog ==> j.second.catalog == Lookup(s.descriptors, d2.value))
    && (j.step >= 7 && d2.Some? && d2 == d && j.onCatalog != Disturbed ==>
          j.second.catalog == Lookup(s.descriptors, d.value) || j.second.catalog == j.first.catalog)
  }

  /** What the entry put by a join under way shows, as long as it is not marked: on the descriptor
      of the first retrieval it may still wait for the second one. */
  predicate CatalogPut(w: World, s: State, pk: TokenKey, e: TokenEntry, j: Join)
    requires pk.ClientKidPurpose? && e.ConsumerEntry?
  {
    var d := KeyRead(w, pk, j.first.agreement);
    if d.None? || e.descriptorKey != d then Current(w, s, pk, e)
    else
      j.onCatalog != Disturbed ==>
        if j.step == 7 && KeyRead(w, pk, j.second.agreement) == d && j.second.catalog == j.first.catalog then
          Current(w, s, pk, e)
        else
          ShowsDescriptor(e, j.first.catalog) || ShowsDescriptor(e, Lookup(s.rows.descriptors, d.value))
  }

  predicate CatalogRaceAt(w: World, s: State, pk: TokenKey)
    requires pk.ClientKidPurpose?
  {
    && (Busy(s, pk) ==> CatalogReads(w, s.rows, pk, s.joins[pk]))
    && (pk in s.tokens && s.tokens[pk].ConsumerEntry? && pk !in s.marks.catalog ==>
          if Busy(s, pk) then s.joins[pk].step >= 4 ==> CatalogPut(w, s, pk, s.tokens[pk], s.joins[pk])
          else Current(w, s, pk, s.tokens[pk]))
  }

  lemma ReadKeepsCatalogReads(w: World, s: Rows, pk: TokenKey, j: Join)
    requires InProgress(j) && JoinSane(w, s, pk, j) && CatalogReads(w, s, pk, j)
    ensures CatalogReads(w, s, pk, NextJoin(s, pk.purpose, j))
  {
  }

  /** The put, and the three reads after it. */
  lemma CallKeepsCatalogPut(w: World, s: State, pk: TokenKey, e: Option<TokenEntry>, j: Join)
    requires 3 <= j.step < 7 && JoinSane(w, s.rows, pk, j) && CatalogReads(w, s.rows, pk, j)
    requires j.step > 3 ==> e.Some? && e.value.ConsumerEntry? && CatalogPut(w, s, pk, e.value, j)
    ensures NextEntry(j, e).Some? && NextEntry(j, e).value.ConsumerEntry?
    ensures CatalogPut(w, s, pk, NextEntry(j, e).value, NextJoin(s.rows, pk.purpose, j))
  {
  }

  /** The final update of an entry whose agreement columns are in order. */
  lemma FinalUpdateIsCurrent(w: World, s: State, pk: TokenKey, e: TokenEntry, j: Join, marked: bool)
    requires j.step == 7 && JoinSane(w, s.rows, pk, j) && e.ConsumerEntry? && CatalogInTime(j, marked)
    requires CatalogReads(w, s.rows, pk, j) && CatalogPut(w, s, pk, e, j)
    requires AgreementReads(Lookup(s.rows.agreements, w.home(pk.purpose)), j, StateOnly(s, w.home(pk.purpose)))
    requires !marked ==>
               AgreementPut(w.home(pk.purpose), Lookup(s.rows.agreements, w.home(pk.purpose)), e, j,
                            Covered(w, s, OfAgreement(w.home(pk.purpose)), pk), StateOnly(s, w.home(pk.purpose)))
    ensures Current(w, s, pk, Rechecked(NewEntry(j.consumer, j.pem, j.first), e, j.second))
  {
  }

  lemma OwnCallKeepsCatalogRace(w: World, s: State, a: Action, pk: TokenKey)
    requires SaneAt(w, s, a, pk) && Enabled(w, s, a) && pk.ClientKidPurpose? && AgreementRaceAt(w, s, pk)
    requires CatalogRaceAt(w, s, pk) && a.Advance? && a.pk == pk
    ensures CatalogRaceAt(w, Step(w, s, a), pk)
  {
    var j := s.joins[pk];
    ReadKeepsCatalogReads(w, s.rows, pk, j);
    if j.step == 7 {
      FinalUpdateKeepsCatalogRace(w, s, a, pk);
    } else {
      if j.step == 3 || (3 < j.step && pk !in s.marks.catalog) {
        assert j.step > 3 ==> pk in s.tokens && s.tokens[pk].ConsumerEntry?;
        CallKeepsCatalogPut(w, s, pk, Lookup(s.tokens, pk), j);
      }
      CallKeepsCatalogRace(w, s, a, pk);
    }
  }

  lemma CallKeepsCatalogRace(w: World, s: State, a: Action, pk: TokenKey)
    requires Enabled(w, s, a) && a.Advance? && a.pk == pk && s.joins[pk].step < 7
    requires CatalogReads(w, s.rows, pk, NextJoin(s.rows, pk.purpose, s.joins[pk]))
    requires s.joins[pk].step == 3 || (3 < s.joins[pk].step && pk !in s.marks.catalog) ==>
               var e := NextEntry(s.joins[pk], Lookup(s.tokens, pk));
               && e.Some? && e.value.ConsumerEntry?
               && CatalogPut(w, s, pk, e.value, NextJoin(s.rows, pk.purpose, s.joins[pk]))
    ensures CatalogRaceAt(w, Step(w, s, a), pk)
  {
  }

  lemma FinalUpdateKeepsCatalogRace(w: World, s: State, a: Action, pk: TokenKey)
    requires SaneAt(w, s, a, pk) && Enabled(w, s, a) && pk.ClientKidPurpose? && AgreementRaceAt(w, s, pk)
    requires CatalogRaceAt(w, s, pk) && a.Advance? && a.pk == pk && s.joins[pk].step == 7
    ensures CatalogRaceAt(w, Step(w, s, a), pk)
  {
    var j, marked := s.joins[pk], pk in s.marks.agreement;
    if pk !in s.marks.catalog && CatalogInTime(j, marked) {
      FinalUpdateIsCurrent(w, s, pk, s.tokens[pk], j, marked);
    }
  }

  lemma JoinKeepsCatalogRace(w: World, s: State, a: Action, pk: TokenKey)
    requires SaneAt(w, s, a, pk) && Enabled(w, s, a) && pk.ClientKidPurpose? && AgreementRaceAt(w, s, pk)
    requires CatalogRaceAt(w, s, pk) && IsJoinAction(a)
    ensures CatalogRaceAt(w, Step(w, s, a), pk)
  {
    if a.Advance? && a.pk == pk {
      OwnCallKeepsCatalogRace(w, s, a, pk);
    }
  }

  lemma PurposeWriteKeepsCatalogRace(w: World, s: State, p: PurposeId, row: Option<PurposeRow>, patch: Patch,
                                     pk: TokenKey)
    requires pk.ClientKidPurpose? && CatalogRaceAt(w, s, pk)
    ensures CatalogRaceAt(w, PurposeWritten(s, p, row, patch), pk)
  {
  }

  lemma AgreementWriteKeepsCatalogRace(w: World, s: State, k: AgreementKey, row: AgreementRow, patch: Patch,
                                       pk: TokenKey)
    requires pk.ClientKidPurpose? && CatalogRaceAt(w, s, pk)
    ensures CatalogRaceAt(w, AgreementWritten(w, s, k, row, patch), pk)
  {
  }

  lemma CatalogWriteKeepsCatalogRace(w: World, s: State, d: DescriptorKey, row: Option<CatalogRow>, patch: Patch,
                                     pk: TokenKey)
    requires OfDescriptor(d) !in s.walks && pk.ClientKidPurpose? && CatalogRaceAt(w, s, pk)
    ensures CatalogRaceAt(w, CatalogWritten(w, s, d, row, patch), pk)
  {
  }

  lemma RewalkKeepsCatalogRace(w: World, s: State, a: Action, pk: TokenKey)
    requires Enabled(w, s, a) && pk.ClientKidPurpose? && CatalogRaceAt(w, s, pk) && a.RewalkAgreement?
    ensures CatalogRaceAt(w, Step(w, s, a), pk)
  {
  }

  lemma PageKeepsCatalogRace(w: World, s: State, a: Action, pk: TokenKey)
    requires Enabled(w, s, a) && pk.ClientKidPurpose? && CatalogRaceAt(w, s, pk) && !a.Update?
    requires SaneAt(w, s, a, pk) && IsWalkAction(a)
    ensures CatalogRaceAt(w, Step(w, s, a), pk)
  {
  }

  lemma UpdateKeepsCatalogRace(w: World, s: State, a: Action, pk: TokenKey)
    requires Enabled(w, s, a) && pk.ClientKidPurpose? && CatalogRaceAt(w, s, pk) && a.Update?
    requires SaneAt(w, s, a, pk)
    ensures CatalogRaceAt(w, Step(w, s, a), pk)
  {
    if a.pk == pk {
      OwnUpdateKeepsCatalogRace(w, s, a, pk);
    }
  }

  lemma OwnUpdateKeepsCatalogRace(w: World, s: State, a: Action, pk: TokenKey)
    requires Enabled(w, s, a) && pk.ClientKidPurpose? && CatalogRaceAt(w, s, pk) && a.Update? && a.pk == pk
    requires WalkSane(w, s, a.rk, s.walks[a.rk])
    ensures CatalogRaceAt(w, Step(w, s, a), pk)
  {
  }

  /* ---- whole runs ---- */

  predicate Races(w: World, s: State, pk: TokenKey)
    requires pk.ClientKidPurpose?
  {
    PurposeRaceAt(w, s, pk) && KeyRaceAt(w, s, pk) && AgreementRaceAt(w, s, pk) && CatalogRaceAt(w, s, pk)
  }

  lemma PurposeWriteKeepsRaces(w: World, s: State, p: PurposeId, row: Option<PurposeRow>, patch: Patch, pk: TokenKey)
    requires OfPurpose(p) !in s.walks && pk.ClientKidPurpose? && Races(w, s, pk)
    requires p in s.rows.purposes || row.None? || patch.PurposeJoinPatch?
    ensures Races(w, PurposeWritten(s, p, row, patch), pk)
  {
    PurposeWriteKeepsPurposeRace(w, s, p, row, patch, pk);
    PurposeWriteKeepsKeyRace(w, s, p, row, patch, pk);
    PurposeWriteKeepsAgreementRace(w, s, p, row, patch, pk);
    PurposeWriteKeepsCatalogRace(w, s, p, row, patch, pk);
  }

  lemma AgreementWriteKeepsRaces(w: World, s: State, k: AgreementKey, row: AgreementRow, patch: Patch, pk: TokenKey)
    requires OfAgreement(k) !in s.walks && pk.ClientKidPurpose? && Races(w, s, pk)
    requires pk in s.joins ==> JoinSane(w, s.rows, pk, s.joins[pk])
    requires pk in s.tokens ==> TokenSane(w, s.rows, pk, s.tokens[pk])
    requires patch.AgreementStatePatch? ==> !Moves(s.rows, k, row)
    ensures Races(w, AgreementWritten(w, s, k, row, patch), pk)
  {
    AgreementWriteKeepsPurposeRace(w, s, k, row, patch, pk);
    AgreementWriteKeepsKeyRace(w, s, k, row, patch, pk);
    AgreementWriteKeepsAgreementRace(w, s, k, row, patch, pk);
    AgreementWriteKeepsCatalogRace(w, s, k, row, patch, pk);
  }

  lemma CatalogWriteKeepsRaces(w: World, s: State, d: DescriptorKey, row: Option<CatalogRow>, patch: Patch,
                               pk: TokenKey)
    requires OfDescriptor(d) !in s.walks && pk.ClientKidPurpose? && Races(w, s, pk)
    ensures Races(w, CatalogWritten(w, s, d, row, patch), pk)
  {
    CatalogWriteKeepsPurposeRace(w, s, d, row, patch, pk);
    CatalogWriteKeepsKeyRace(w, s, d, row, patch, pk);
    CatalogWriteKeepsAgreementRace(w, s, d, row, patch, pk);
    CatalogWriteKeepsCatalogRace(w, s, d, row, patch, pk);
  }

  lemma RewalkKeepsRaces(w: World, s: State, a: Action, pk: TokenKey)
    requires Enabled(w, s, a) && pk.ClientKidPurpose? && Races(w, s, pk) && a.RewalkAgreement?
    ensures Races(w, Step(w, s, a), pk)
  {
    RewalkKeepsAgreementRace(w, s, a, pk);
    RewalkKeepsCatalogRace(w, s, a, pk);
  }

  lemma WriteKeepsRaces(w: World, s: State, a: Action, pk: TokenKey)
    requires Enabled(w, s, a) && pk.ClientKidPurpose? && Races(w, s, pk) && !IsJoinAction(a) && !IsWalkAction(a)
    requires SaneAt(w, s, a, pk)
    ensures Races(w, Step(w, s, a), pk)
  {
    var t := Step(w, s, a);
    match a
    case ActivatePurpose(p, row) => PurposeWriteKeepsRaces(w, s, p, Some(row), t.walks[OfPurpose(p)].patch, pk);
    case ChangePurpose(p, row) => PurposeWriteKeepsRaces(w, s, p, Some(row), t.walks[OfPurpose(p)].patch, pk);
    case ArchivePurpose(p, _) => PurposeWriteKeepsRaces(w, s, p, None, t.walks[OfPurpose(p)].patch, pk);
    case ActivateAgreement(k, row, _) => AgreementWriteKeepsRaces(w, s, k, row, t.walks[OfAgreement(k)].patch, pk);
    case RewalkAgreement(_, _) => RewalkKeepsRaces(w, s, a, pk);
    case ChangeAgreement(k, _) =>
      AgreementWriteKeepsRaces(w, s, k, t.rows.agreements[k], t.walks[OfAgreement(k)].patch, pk);
    case PublishDescriptor(d, row) => CatalogWriteKeepsRaces(w, s, d, Some(row), t.walks[OfDescriptor(d)].patch, pk);
    case ChangeDescriptor(d, _) =>
      CatalogWriteKeepsRaces(w, s, d, Some(t.rows.descriptors[d]), t.walks[OfDescriptor(d)].patch, pk);
    case DeleteDescriptor(d, _) => CatalogWriteKeepsRaces(w, s, d, None, t.walks[OfDescriptor(d)].patch, pk);
  }

  lemma WalkKeepsRaces(w: World, s: State, a: Action, pk: TokenKey)
    requires Enabled(w, s, a) && pk.ClientKidPurpose? && Races(w, s, pk) && IsWalkAction(a) && SaneAt(w, s, a, pk)
    ensures Races(w, Step(w, s, a), pk)
  {
    WalkKeepsPurposeRace(w, s, a, pk);
    WalkKeepsKeyRace(w, s, a, pk);
    if a.Update? {
      UpdateKeepsAgreementRace(w, s, a, pk);
      UpdateKeepsCatalogRace(w, s, a, pk);
    } else {
      PageKeepsAgreementRace(w, s, a, pk);
      PageKeepsCatalogRace(w, s, a, pk);
    }
  }

  lemma StepKeepsRaces(w: World, s: State, a: Action, pk: TokenKey)
    requires Sane(w, s) && Enabled(w, s, a) && pk.ClientKidPurpose? && Races(w, s, pk)
    ensures Races(w, Step(w, s, a), pk)
  {
    assert SaneAt(w, s, a, pk);
    if IsJoinAction(a) {
      JoinKeepsPurposeRace(w, s, a, pk);
      JoinKeepsKeyRace(w, s, a, pk);
      JoinKeepsAgreementRace(w, s, a, pk);
      JoinKeepsCatalogRace(w, s, a, pk);
    } else if IsWalkAction(a) {
      WalkKeepsRaces(w, s, a, pk);
    } else {
      WriteKeepsRaces(w, s, a, pk);
    }
  }

  lemma {:induction false} RunKeepsRaces(w: World, s: State, actions: seq<Action>, pk: TokenKey)
    requires Valid(w, s, actions) && Sane(w, s) && pk.ClientKidPurpose? && Races(w, s, pk)
    decreases |actions|
    ensures Sane(w, Exec(w, s, actions)) && Races(w, Exec(w, s, actions), pk)
  {
    if actions != [] {
      StepKeepsSane(w, s, actions[0]);
      StepKeepsRaces(w, s, actions[0], pk);
      RunKeepsRaces(w, Step(w, s, actions[0]), actions[1..], pk);
    }
  }

  /** The run begins at rest, in a coherent store. */
  ghost predicate AtRest(w: World, j: Journal, s: State) {
    s.joins == map[] && s.walks == map[] && s.marks == NO_MARKS && w.home == j.home
      && Coherent(j, Store(s.rows, s.tokens))
  }

  lemma RestSatisfiesRaces(w: World, j: Journal, s: State, pk: TokenKey)
    requires AtRest(w, j, s) && pk.ClientKidPurpose?
    ensures Sane(w, s) && Races(w, s, pk)
  {
    forall p | p in s.rows.purposes
      ensures AgreementKey(s.rows.purposes[p].consumer, s.rows.purposes[p].eservice) == w.home(p)
    {
      assert PurposeRowCoherent(j, p, s.rows.purposes[p]);
    }
    forall other | other in s.tokens ensures TokenSane(w, s.rows, other, s.tokens[other]) {
      assert EntryCoherent(j, s.rows, other, s.tokens[other]);
    }
    assert pk in s.tokens ==> EntryCoherent(j, s.rows, pk, s.tokens[pk]);
  }

  /** Race closure.  Start at rest and interleave, call by call, any number of joins and of upstream
      handlers, with any page boundaries.  Once the propagations are done, an entry whose join is done
      has its agreement key if its purpose has a row; and it agrees with each of its rows unless its
      columns for that row are marked, which takes a final update out of time (`PurposeInTime`,
      `AgreementInTime`, `CatalogInTime`) or a propagation that carried an outdated row or left
      outdated columns alone (`AgreementMark`, `CatalogMark`), with no put or update in time since. */
  lemma RaceClosure(w: World, j: Journal, s: State, actions: seq<Action>, pk: TokenKey)
    requires AtRest(w, j, s) && Valid(w, s, actions)
    requires Exec(w, s, actions).walks == map[] && !Busy(Exec(w, s, actions), pk)
    requires pk.ClientKidPurpose? && pk in Exec(w, s, actions).tokens && Exec(w, s, actions).tokens[pk].ConsumerEntry?
    ensures var t := Exec(w, s, actions); var e, k := t.tokens[pk], w.home(pk.purpose);
            && (pk !in t.marks.purpose ==> ShowsPurpose(e, Lookup(t.rows.purposes, pk.purpose)))
            && (pk.purpose in t.rows.purposes ==> e.agreementKey == Some(k))
            && (pk !in t.marks.agreement && e.agreementKey.Some? ==>
                  ShowsAgreement(k, e, Lookup(t.rows.agreements, k)))
            && (pk !in t.marks.catalog && e.descriptorKey.Some? ==>
                  ShowsDescriptor(e, Lookup(t.rows.descriptors, e.descriptorKey.value)))
  {
    RestSatisfiesRaces(w, j, s, pk);
    RunKeepsRaces(w, s, actions, pk);
    var t := Exec(w, s, actions);
    assert TokenSane(w, t.rows, pk, t.tokens[pk]);
  }

  /* ---- runs in time ---- */

  /** A step that writes the entry in time: the final update of its join, or an update of a propagation. */
  predicate InTime(s: State, a: Action, pk: TokenKey) {
    && (a == Advance(pk) && pk in s.joins && s.joins[pk].step == 7 ==>
          PurposeInTime(s.joins[pk]) && AgreementInTime(s.joins[pk]) && CatalogInTime(s.joins[pk], false))
    && (a.Update? && a.pk == pk && a.rk in s.walks && pk in s.walks[a.rk].page
        && pk in s.tokens && s.tokens[pk].ConsumerEntry? ==>
          var walk, e := s.walks[a.rk], s.tokens[pk];
          && !AgreementMark(s.rows, walk.patch, walk.page[pk], e, false)
          && !CatalogMark(s.rows, walk.patch, walk.page[pk], e, false))
  }

  ghost predicate AlwaysInTime(w: World, s: State, actions: seq<Action>, pk: TokenKey)
    requires Valid(w, s, actions)
    decreases |actions|
  {
    actions == [] || (InTime(s, actions[0], pk) && AlwaysInTime(w, Step(w, s, actions[0]), actions[1..], pk))
  }

  predicate Unmarked(m: Marks, pk: TokenKey) {
    pk !in m.purpose && pk !in m.agreement && pk !in m.catalog
  }

  lemma {:induction false} InTimeRunsAreUnmarked(w: World, s: State, actions: seq<Action>, pk: TokenKey)
    requires Valid(w, s, actions) && AlwaysInTime(w, s, actions, pk) && Unmarked(s.marks, pk)
    decreases |actions|
    ensures Unmarked(Exec(w, s, actions).marks, pk)
  {
    if actions != [] {
      InTimeStepsAreUnmarked(w, s, actions[0], pk);
      InTimeRunsAreUnmarked(w, Step(w, s, actions[0]), actions[1..], pk);
    }
  }

  lemma InTimeStepsAreUnmarked(w: World, s: State, a: Action, pk: TokenKey)
    requires Enabled(w, s, a) && InTime(s, a, pk) && Unmarked(s.marks, pk)
    ensures Unmarked(Step(w, s, a).marks, pk)
  {
  }

  /** The closure without marks: in a run whose writes of the entry are all in time, the entry of a
      purpose with a row ends agreeing with its three rows, and its keys lead to them. */
  lemma InTimeRunsAreRight(w: World, j: Journal, s: State, actions: seq<Action>, pk: TokenKey)
    requires AtRest(w, j, s) && Valid(w, s, actions) && AlwaysInTime(w, s, actions, pk)
    requires Exec(w, s, actions).walks == map[] && !Busy(Exec(w, s, actions), pk)
    requires pk.ClientKidPurpose? && pk in Exec(w, s, actions).tokens && Exec(w, s, actions).tokens[pk].ConsumerEntry?
    requires pk.purpose in Exec(w, s, actions).rows.purposes
    ensures var t := Exec(w, s, actions); var e, k := t.tokens[pk], w.home(pk.purpose);
            && ShowsPurpose(e, Some(t.rows.purposes[pk.purpose]))
            && e.agreementKey == Some(k) && ShowsAgreement(k, e, Lookup(t.rows.agreements, k))
            && (k in t.rows.agreements ==>
                  ShowsDescriptor(e, Lookup(t.rows.descriptors,
                                            DescriptorKey(k.eservice, t.rows.agreements[k].descriptor))))
  {
    RaceClosure(w, j, s, actions, pk);
    InTimeRunsAreUnmarked(w, s, actions, pk);
  }

  /* ---- left alone ---- */

  /** The next `n` calls of a join with nothing else happening. */
  function Uninterrupted(s: Rows, p: PurposeId, j: Join, e: Option<TokenEntry>, n: nat): (Join, Option<TokenEntry>)
    decreases n
  {
    if n == 0 then (j, e) else Uninterrupted(s, p, NextJoin(s, p, j), NextEntry(j, e), n - 1)
  }

  /** Left alone, the eight calls amount to the one-step join of the message handlers. */
  lemma UninterruptedJoin(s: Rows, p: PurposeId, consumer: TenantId, pem: string, e: Option<TokenEntry>)
    ensures Uninterrupted(s, p, NewJoin(consumer, pem), e, 8).1 == Some(JoinedEntry(s, consumer, pem, p))
  {
    var j0 := NewJoin(consumer, pem);
    var j3 := NextJoin(s, p, NextJoin(s, p, NextJoin(s, p, j0)));
    assert j3.first == Retrieve(s, p);
    var j7 := NextJoin(s, p, NextJoin(s, p, NextJoin(s, p, NextJoin(s, p, j3))));
    assert j7.first == j7.second == Retrieve(s, p);
    var put := NextEntry(j3, e);
    assert Uninterrupted(s, p, j0, e, 8) == Uninterrupted(s, p, j3, e, 5);
    assert Uninterrupted(s, p, j3, e, 5) == Uninterrupted(s, p, NextJoin(s, p, j3), put, 4);
    assert Uninterrupted(s, p, NextJoin(s, p, j3), put, 4) == Uninterrupted(s, p, j7, put, 1);
  }
}
