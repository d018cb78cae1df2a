/** The agreement writer's two reads of a catalog row around its propagation, against a catalog writer
    that writes the row and propagates it at the same time. */
module SecondCatalogRead {
  import opened Wrappers
  import opened Domain
  import opened Tables
  import opened SecondRetrieval

  /** Where the handler of an activation or upgrade stands after it wrote its agreement row. */
  datatype Phase = BeforeFirstRead | FirstWalk | BeforeSecondRead | SecondWalk | Done

  /** The descriptor row and its propagation, and the handler's own reads and propagation; `window`
      counts the writes of the row between the handler's first read and its end. */
  datatype Duel = Duel(
    row: Option<CatalogRow>,
    tokens: Tokens,
    catalogWalk: Option<Walk>,
    phase: Phase,
    first: Option<CatalogRow>,
    second: Option<CatalogRow>,
    ownWalk: Option<Walk>,
    window: Window)

  datatype Move =
    | Read
    | OwnPage(last: Option<int>)
    | OwnUpdate(pk: TokenKey)
    | OwnFinish
    | WriteRow(row: Option<CatalogRow>, deletedState: ItemState)
    | CatalogPage(last: Option<int>)
    | CatalogUpdate(pk: TokenKey)
    | CatalogFinish

  /** The agreement row that the handler wrote. */
  datatype Upgrade = Upgrade(agreementKey: AgreementKey, row: AgreementRow)

  function Target(u: Upgrade): DescriptorKey {
    DescriptorKey(u.agreementKey.eservice, u.row.descriptor)
  }

  function OwnPatch(u: Upgrade, catalog: Option<CatalogRow>): Patch {
    AgreementPatch(u.agreementKey, u.row.agreementId, u.row.state, Target(u), catalog)
  }

  predicate PageReady(walk: Option<Walk>, last: Option<int>) {
    walk.Some? && walk.value.page == map[] && walk.value.more
    && (last.Some? && walk.value.cursor.Some? ==> last.value > walk.value.cursor.value)
  }

  predicate UpdateReady(walk: Option<Walk>, t: Tokens, pk: TokenKey) {
    walk.Some? && pk in walk.value.page && pk in t && t[pk].ConsumerEntry?
  }

  predicate FinishReady(walk: Option<Walk>) {
    walk.Some? && walk.value.page == map[] && !walk.value.more
  }

  predicate Possible(s: Duel, m: Move) {
    match m
    case Read => s.phase == BeforeFirstRead || s.phase == BeforeSecondRead
    case OwnPage(last) => PageReady(s.ownWalk, last)
    case OwnUpdate(pk) => UpdateReady(s.ownWalk, s.tokens, pk)
    case OwnFinish => FinishReady(s.ownWalk)
    case WriteRow(_, _) => s.catalogWalk.None?
    case CatalogPage(last) => PageReady(s.catalogWalk, last)
    case CatalogUpdate(pk) => UpdateReady(s.catalogWalk, s.tokens, pk)
    case CatalogFinish => FinishReady(s.catalogWalk)
  }

  function Paged(w: World, t: Tokens, walk: Walk, last: Option<int>): Option<Walk> {
    Some(Queried(w, t, walk, last))
  }

  function Updated(walk: Walk, pk: TokenKey): Option<Walk> {
    Some(walk.(page := walk.page - {pk}))
  }

  /** The second propagation is run only if the row appeared or changed state. */
  predicate NeedsSecondWalk(first: Option<CatalogRow>, second: Option<CatalogRow>) {
    second.Some? && (first.None? || second.value.state != first.value.state)
  }

  function Moved(w: World, u: Upgrade, s: Duel, m: Move): Duel
    requires Possible(s, m)
  {
    match m
    case Read =>
      if s.phase == BeforeFirstRead then
        s.(phase := FirstWalk, first := s.row, ownWalk := Some(Begun(OwnPatch(u, s.row))))
      else if NeedsSecondWalk(s.first, s.row) then
        s.(phase := SecondWalk, second := s.row, ownWalk := Some(Begun(OwnPatch(u, s.row))))
      else
        s.(phase := Done, second := s.row)
    case OwnPage(last) => s.(ownWalk := Paged(w, s.tokens, s.ownWalk.value, last))
    case OwnUpdate(pk) =>
      s.(tokens := s.tokens[pk := Patched(s.ownWalk.value.patch, s.tokens[pk])],
         ownWalk := Updated(s.ownWalk.value, pk))
    case OwnFinish => s.(ownWalk := None, phase := if s.phase == FirstWalk then BeforeSecondRead else Done)
    case WriteRow(row, deletedState) =>
      s.(row := row,
         catalogWalk := Some(Begun(DescriptorStatePatch(Target(u),
                                                        if row.Some? then row.value.state else deletedState))),
         window := if s.phase == BeforeFirstRead || s.phase == Done then s.window
                   else if row.None? then Disturbed else Bumped(s.window))
    case CatalogPage(last) => s.(catalogWalk := Paged(w, s.tokens, s.catalogWalk.value, last))
    case CatalogUpdate(pk) =>
      s.(tokens := s.tokens[pk := Patched(s.catalogWalk.value.patch, s.tokens[pk])],
         catalogWalk := Updated(s.catalogWalk.value, pk))
    case CatalogFinish => s.(catalogWalk := None)
  }

  ghost predicate Playable(w: World, u: Upgrade, s: Duel, moves: seq<Move>)
    decreases |moves|
  {
    moves == [] || (Possible(s, moves[0]) && Playable(w, u, Moved(w, u, s, moves[0]), moves[1..]))
  }

  function Play(w: World, u: Upgrade, s: Duel, moves: seq<Move>): Duel
    requires Playable(w, u, s, moves)
    decreases |moves|
  {
    if moves == [] then s else Play(w, u, Moved(w, u, s, moves[0]), moves[1..])
  }

  predicate Awaits(w: World, walk: Option<Walk>, pk: TokenKey) {
    walk.Some? && (pk in walk.value.page || (walk.value.more && Ahead(w, walk.value.cursor, pk)))
  }

  /** The two walks carry what they should, and the handler walks just in its walking phases. */
  predicate Orderly(u: Upgrade, s: Duel) {
    && (s.phase == FirstWalk || s.phase == SecondWalk <==> s.ownWalk.Some?)
    && (s.phase == FirstWalk ==> s.ownWalk.value.patch == OwnPatch(u, s.first))
    && (s.phase == SecondWalk ==> s.ownWalk.value.patch == OwnPatch(u, s.second) && NeedsSecondWalk(s.first, s.second))
    && (s.phase == BeforeFirstRead ==> s.window == Quiet)
    && (s.catalogWalk.Some? ==>
          s.catalogWalk.value.patch.DescriptorStatePatch? && s.catalogWalk.value.patch.descriptorKey == Target(u)
          && (s.row.Some? ==> s.catalogWalk.value.patch.state == s.row.value.state))
    && (s.phase != BeforeFirstRead && s.window == Quiet ==> s.first == s.row || s.phase == Done)
    && (s.phase != BeforeFirstRead && s.window == OneWrite ==> s.row.Some? || s.phase == Done)
    && (s.phase == SecondWalk ==> s.window != Quiet && (s.window == OneWrite ==> s.second == s.row))
  }

  predicate HasAgreement(u: Upgrade, e: TokenEntry)
    requires e.ConsumerEntry?
  {
    e.agreementId == Some(u.row.agreementId) && e.agreementState == Some(u.row.state)
      && e.descriptorKey == Some(Target(u))
  }

  /** One entry of the agreement: not reached yet, or on the new descriptor and on its way to the row. */
  predicate EntryRace(w: World, u: Upgrade, s: Duel, pk: TokenKey) {
    && pk in s.tokens && s.tokens[pk].ConsumerEntry? && s.tokens[pk].agreementKey == Some(u.agreementKey)
    && var e := s.tokens[pk];
       match s.phase
       case BeforeFirstRead => true
       case FirstWalk =>
         Awaits(w, s.ownWalk, pk)
         || (HasAgreement(u, e) && (s.window != Disturbed ==> ShowsDescriptor(e, s.first) || ShowsDescriptor(e, s.row)))
       case BeforeSecondRead =>
         HasAgreement(u, e) && (s.window != Disturbed ==> ShowsDescriptor(e, s.first) || ShowsDescriptor(e, s.row))
       case SecondWalk =>
         HasAgreement(u, e) && (s.window != Disturbed ==> Awaits(w, s.ownWalk, pk) || ShowsDescriptor(e, s.row))
       case Done =>
         HasAgreement(u, e) && (s.window != Disturbed ==> ShowsDescriptor(e, s.row) || Awaits(w, s.catalogWalk, pk))
  }

  lemma MoveKeepsOrder(w: World, u: Upgrade, s: Duel, m: Move)
    requires Orderly(u, s) && Possible(s, m)
    ensures Orderly(u, Moved(w, u, s, m))
  {
  }

  lemma MoveKeepsEntryRace(w: World, u: Upgrade, s: Duel, m: Move, pk: TokenKey)
    requires Orderly(u, s) && Possible(s, m) && EntryRace(w, u, s, pk)
    ensures EntryRace(w, u, Moved(w, u, s, m), pk)
  {
  }

  lemma {:induction false} PlayKeepsEntryRace(w: World, u: Upgrade, s: Duel, moves: seq<Move>, pk: TokenKey)
    requires Playable(w, u, s, moves) && Orderly(u, s) && EntryRace(w, u, s, pk)
    decreases |moves|
    ensures EntryRace(w, u, Play(w, u, s, moves), pk)
  {
    if moves != [] {
      MoveKeepsOrder(w, u, s, moves[0]);
      MoveKeepsEntryRace(w, u, s, moves[0], pk);
      PlayKeepsEntryRace(w, u, Moved(w, u, s, moves[0]), moves[1..], pk);
    }
  }

  /* ---- the handler is never stuck ---- */

  /** What is left on the handler's current page can still be updated. */
  predicate PagePresent(s: Duel) {
    s.ownWalk.Some? ==> forall pk :: pk in s.ownWalk.value.page ==> pk in s.tokens && s.tokens[pk].ConsumerEntry?
  }

  function Rank(p: Phase): nat {
    match p
    case BeforeFirstRead => 4
    case FirstWalk => 3
    case BeforeSecondRead => 2
    case SecondWalk => 1
    case Done => 0
  }

  function PageSize(s: Duel): nat {
    if s.ownWalk.Some? then |s.ownWalk.value.page| else 0
  }

  /** Wherever it stands the handler can come to its end with moves of its own. */
  lemma {:induction false} HandlerCanEnd(w: World, u: Upgrade, s: Duel) returns (moves: seq<Move>)
    requires Orderly(u, s) && PagePresent(s)
    ensures Playable(w, u, s, moves) && Play(w, u, s, moves).phase == Done
    ensures forall m :: m in moves ==> m.Read? || m.OwnPage? || m.OwnUpdate? || m.OwnFinish?
    decreases Rank(s.phase), s.ownWalk.Some? && s.ownWalk.value.more, PageSize(s)
  {
    if s.phase == Done {
      moves := [];
      return;
    }
    var m: Move;
    if s.phase == BeforeFirstRead || s.phase == BeforeSecondRead {
      m := Read;
    } else {
      var walk := s.ownWalk.value;
      if walk.page != map[] {
        var pk :| pk in walk.page;
        m := OwnUpdate(pk);
      } else if walk.more {
        m := OwnPage(None);
      } else {
        m := OwnFinish;
      }
    }
    MoveKeepsOrder(w, u, s, m);
    var t := Moved(w, u, s, m);
    var rest := HandlerCanEnd(w, u, t);
    moves := [m] + rest;
    assert moves[1..] == rest;
  }

  predicate CatalogPagePresent(s: Duel) {
    s.catalogWalk.Some? ==>
      forall pk :: pk in s.catalogWalk.value.page ==> pk in s.tokens && s.tokens[pk].ConsumerEntry?
  }

  function CatalogPageSize(s: Duel): nat {
    if s.catalogWalk.Some? then |s.catalogWalk.value.page| else 0
  }

  /** And the catalog writer to its next write, whatever that is. */
  lemma {:induction false} WriterCanWrite(w: World, u: Upgrade, s: Duel, row: Option<CatalogRow>, state: ItemState)
    returns (moves: seq<Move>)
    requires CatalogPagePresent(s)
    ensures Playable(w, u, s, moves) && Play(w, u, s, moves).row == row
    ensures forall m :: m in moves ==> m.WriteRow? || m.CatalogPage? || m.CatalogUpdate? || m.CatalogFinish?
    decreases s.catalogWalk.Some?, s.catalogWalk.Some? && s.catalogWalk.value.more, CatalogPageSize(s)
  {
    if s.catalogWalk.None? {
      moves := [WriteRow(row, state)];
      assert moves[1..] == [];
      return;
    }
    var walk := s.catalogWalk.value;
    var m: Move;
    if walk.page != map[] {
      var pk :| pk in walk.page;
      m := CatalogUpdate(pk);
    } else if walk.more {
      m := CatalogPage(None);
    } else {
      m := CatalogFinish;
    }
    var rest := WriterCanWrite(w, u, Moved(w, u, s, m), row, state);
    moves := [m] + rest;
    assert moves[1..] == rest;
  }

  predicate Reading(s: Duel) {
    s.phase != BeforeFirstRead && s.phase != Done
  }

  /** How often the descriptor row is written between the handler's first read and its end. */
  function WritesWhileReading(w: World, u: Upgrade, s: Duel, moves: seq<Move>): nat
    requires Playable(w, u, s, moves)
    decreases |moves|
  {
    if moves == [] then 0
    else
      (if moves[0].WriteRow? && Reading(s) then 1 else 0)
      + WritesWhileReading(w, u, Moved(w, u, s, moves[0]), moves[1..])
  }

  /** Whether it is deleted in that time. */
  predicate DeletedWhileReading(w: World, u: Upgrade, s: Duel, moves: seq<Move>)
    requires Playable(w, u, s, moves)
    decreases |moves|
  {
    moves != []
    && ((moves[0].WriteRow? && moves[0].row.None? && Reading(s))
        || DeletedWhileReading(w, u, Moved(w, u, s, moves[0]), moves[1..]))
  }

  lemma {:induction false} WindowCounts(w: World, u: Upgrade, s: Duel, moves: seq<Move>)
    requires Playable(w, u, s, moves) && !DeletedWhileReading(w, u, s, moves)
    decreases |moves|
    ensures var n, after := WritesWhileReading(w, u, s, moves), Play(w, u, s, moves).window;
            && (s.window == Quiet && n <= 1 ==> after != Disturbed)
            && (s.window == OneWrite && n == 0 ==> after == OneWrite)
  {
    if moves != [] {
      WindowCounts(w, u, Moved(w, u, s, moves[0]), moves[1..]);
    }
  }

  /** Race closure for the double read.  However the two writers' calls interleave, and with any page
      boundaries, every entry of the agreement ends on the new agreement and descriptor; and if the
      descriptor row was written at most once, and not deleted, between the handler's first read and
      its end, the entry shows that row's state, once its propagation is done as well. */
  lemma DoubleReadClosure(w: World, u: Upgrade, s: Duel, moves: seq<Move>, pk: TokenKey)
    requires s.phase == BeforeFirstRead && s.window == Quiet && s.ownWalk.None? && s.catalogWalk.None?
    requires pk in s.tokens && s.tokens[pk].ConsumerEntry? && s.tokens[pk].agreementKey == Some(u.agreementKey)
    requires Playable(w, u, s, moves)
    requires Play(w, u, s, moves).phase == Done && Play(w, u, s, moves).catalogWalk.None?
    ensures var t := Play(w, u, s, moves);
            && pk in t.tokens && t.tokens[pk].ConsumerEntry?
            && t.tokens[pk].agreementId == Some(u.row.agreementId)
            && t.tokens[pk].agreementState == Some(u.row.state)
            && t.tokens[pk].descriptorKey == Some(DescriptorKey(u.agreementKey.eservice, u.row.descriptor))
            && (WritesWhileReading(w, u, s, moves) <= 1 && !DeletedWhileReading(w, u, s, moves) && t.row.Some? ==>
                  t.tokens[pk].descriptorState == Some(t.row.value.state))
  {
    PlayKeepsEntryRace(w, u, s, moves, pk);
    if !DeletedWhileReading(w, u, s, moves) {
      WindowCounts(w, u, s, moves);
    }
  }
}
