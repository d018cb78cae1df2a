/** anac-certified-attributes-importer: the file of organisations read in batches, its attributes
    assigned and unassigned, and those of organisations not in the file taken away. */
module AnacImport {
  import opened Wrappers

  datatype Attribute = Enabled | InValidation | Appointed

  datatype Grants = Grants(enabled: bool, inValidation: bool, appointed: bool)

  const NO_GRANTS := Grants(false, false, false)

  function Get(g: Grants, x: Attribute): bool {
    match x
    case Enabled => g.enabled
    case InValidation => g.inValidation
    case Appointed => g.appointed
  }

  function With(g: Grants, x: Attribute, v: bool): Grants {
    match x
    case Enabled => g.(enabled := v)
    case InValidation => g.(inValidation := v)
    case Appointed => g.(appointed := v)
  }

  /** Public administrations are told apart by their IPA code, the others by their tax code. */
  datatype Organisation = PublicBody(code: string) | PrivateBody(code: string)

  datatype Record = Record(organisation: Organisation, grants: Grants)

  /** A line of the file; none when it does not parse. */
  type Line = Option<Record>

  /** What the tenants of the platform hold. */
  type Tenants = map<Organisation, Grants>

  function Parsed(lines: seq<Line>): seq<Record> {
    if lines == [] then []
    else Parsed(lines[..|lines| - 1]) + if lines[|lines| - 1].Some? then [lines[|lines| - 1].value] else []
  }

  /** The records that the file holds of one of the two kinds, in order. */
  function OfKind(records: seq<Record>, isPublic: bool): seq<Record> {
    if records == [] then []
    else
      OfKind(records[..|records| - 1], isPublic)
      + if records[|records| - 1].organisation.PublicBody? == isPublic then [records[|records| - 1]] else []
  }

  function CodesOf(records: seq<Record>): seq<string> {
    seq(|records|, i requires 0 <= i < |records| => records[i].organisation.code)
  }

  /* ---- records handled against the tenants as they were read ---- */

  /** One attribute of one record: `seen` is what the importer read, `held` what the tenant has by now.
      Without a difference to what was read there is no call; assigning what is held is an error, while
      revoking again is not. */
  function Answer(held: bool, seen: bool, wanted: bool): Option<bool> {
    if wanted == seen then Some(held)
    else if wanted && held then None
    else Some(wanted)
  }

  /** One attribute more of the same record, unless a call has failed. */
  function Step(held: Option<Grants>, x: Attribute, seen: Grants, wanted: Grants): Option<Grants> {
    if held.None? then None
    else
      match Answer(Get(held.value, x), Get(seen, x), Get(wanted, x))
      case None => None
      case Some(v) => Some(With(held.value, x, v))
  }

  function Answers(held: Grants, seen: Grants, wanted: Grants): Option<Grants> {
    Step(Step(Step(Some(held), Enabled, seen, wanted), InValidation, seen, wanted), Appointed, seen, wanted)
  }

  /** The records one after the other, each compared with the tenants read before the first of them. */
  function Handled(seen: Tenants, records: seq<Record>): Option<Tenants> {
    if records == [] then Some(seen)
    else
      var r := records[|records| - 1];
      match Handled(seen, records[..|records| - 1])
      case None => None
      case Some(held) =>
        if r.organisation !in seen || r.organisation !in held then Some(held)
        else
          match Answers(held[r.organisation], seen[r.organisation], r.grants)
          case None => None
          case Some(grants) => Some(held[r.organisation := grants])
  }

  /** What the records of an organisation want of one attribute, in order. */
  function Wants(records: seq<Record>, o: Organisation, x: Attribute): seq<bool> {
    if records == [] then []
    else
      var before, r := Wants(records[..|records| - 1], o, x), records[|records| - 1];
      if r.organisation == o then before + [Get(r.grants, x)] else before
  }

  /** The same for one attribute of one tenant alone. */
  function Fold(seen: bool, wants: seq<bool>): Option<bool> {
    if wants == [] then Some(seen)
    else
      match Fold(seen, wants[..|wants| - 1])
      case None => None
      case Some(held) => Answer(held, seen, wants[|wants| - 1])
  }

  /** Two records ask for an attribute that the tenant was read without. */
  predicate AskedTwice(seen: bool, wants: seq<bool>) {
    !seen && exists i, k :: 0 <= i < k < |wants| && wants[i] && wants[k]
  }

  predicate Differs(seen: bool, wants: seq<bool>) {
    exists k :: 0 <= k < |wants| && wants[k] != seen
  }

  /** It fails exactly when an assignment is asked for twice; and any difference decides. */
  lemma {:induction false} FoldExactly(seen: bool, wants: seq<bool>)
    ensures Fold(seen, wants).None? <==> AskedTwice(seen, wants)
    ensures Fold(seen, wants).Some? ==> (Fold(seen, wants).value != seen <==> Differs(seen, wants))
  {
    if wants != [] {
      var before, n := wants[..|wants| - 1], |wants| - 1;
      FoldExactly(seen, before);
      assert forall k :: 0 <= k < n ==> before[k] == wants[k];
      if AskedTwice(seen, before) {
        var i, k :| 0 <= i < k < n && before[i] && before[k];
        assert wants[i] && wants[k];
      }
      if Differs(seen, before) {
        var k :| 0 <= k < n && before[k] != seen;
        assert wants[k] != seen;
      }
    }
  }

  lemma WantsNext(records: seq<Record>, r: Record, o: Organisation, x: Attribute)
    ensures Wants(records + [r], o, x)
            == if r.organisation == o then Wants(records, o, x) + [Get(r.grants, x)] else Wants(records, o, x)
  {
    assert (records + [r])[..|records|] == records;
  }

  lemma FoldNext(seen: bool, wants: seq<bool>, w: bool)
    ensures Fold(seen, wants + [w])
            == match Fold(seen, wants) case None => None case Some(held) => Answer(held, seen, w)
  {
    assert (wants + [w])[..|wants|] == wants;
  }

  function FoldOf(seen: Tenants, records: seq<Record>, o: Organisation, x: Attribute): Option<bool>
    requires o in seen
  {
    Fold(Get(seen[o], x), Wants(records, o, x))
  }

  lemma FoldOfNext(seen: Tenants, records: seq<Record>, r: Record, o: Organisation, x: Attribute)
    requires o in seen
    ensures FoldOf(seen, records + [r], o, x)
            == if r.organisation != o then FoldOf(seen, records, o, x)
               else match FoldOf(seen, records, o, x)
                    case None => None
                    case Some(held) => Answer(held, Get(seen[o], x), Get(r.grants, x))
  {
    WantsNext(records, r, o, x);
    FoldNext(Get(seen[o], x), Wants(records, o, x), Get(r.grants, x));
  }

  ghost predicate AllFold(seen: Tenants, records: seq<Record>) {
    forall o, x :: o in seen ==> FoldOf(seen, records, o, x).Some?
  }

  predicate OneAnswers(held: Grants, seen: Grants, wanted: Grants, x: Attribute) {
    Answer(Get(held, x), Get(seen, x), Get(wanted, x)).Some?
  }

  lemma AnswersExactly(held: Grants, seen: Grants, wanted: Grants)
    ensures Answers(held, seen, wanted).Some? <==> forall x :: OneAnswers(held, seen, wanted, x)
    ensures Answers(held, seen, wanted).Some? ==>
              forall x :: Get(Answers(held, seen, wanted).value, x)
                == Answer(Get(held, x), Get(seen, x), Get(wanted, x)).value
  {
    AnswersTogether(held, seen, wanted);
    if Answers(held, seen, wanted).Some? {
      forall x ensures Get(Answers(held, seen, wanted).value, x)
        == Answer(Get(held, x), Get(seen, x), Get(wanted, x)).value {
        AnswersAt(held, seen, wanted, x);
      }
    }
  }

  lemma AnswersTogether(held: Grants, seen: Grants, wanted: Grants)
    ensures Answers(held, seen, wanted).Some?
            <==>
            OneAnswers(held, seen, wanted, Enabled) && OneAnswers(held, seen, wanted, InValidation)
            && OneAnswers(held, seen, wanted, Appointed)
  {
  }

  lemma AnswersAt(held: Grants, seen: Grants, wanted: Grants, x: Attribute)
    requires Answers(held, seen, wanted).Some?
    ensures OneAnswers(held, seen, wanted, x)
    ensures Get(Answers(held, seen, wanted).value, x) == Answer(Get(held, x), Get(seen, x), Get(wanted, x)).value
  {
  }

  /** The records of different organisations, and the three attributes, do not interfere. */
  lemma {:induction false} HandledExactly(seen: Tenants, records: seq<Record>)
    ensures Handled(seen, records).Some? <==> AllFold(seen, records)
    ensures Handled(seen, records).Some? ==>
              Handled(seen, records).value.Keys == seen.Keys
              && forall o, x :: o in seen ==>
                     FoldOf(seen, records, o, x) == Some(Get(Handled(seen, records).value[o], x))
  {
    if records != [] {
      var before, r := records[..|records| - 1], records[|records| - 1];
      assert records == before + [r];
      HandledExactly(seen, before);
      forall o, x | o in seen
        ensures FoldOf(seen, records, o, x)
                == if r.organisation != o then FoldOf(seen, before, o, x)
                   else match FoldOf(seen, before, o, x)
                        case None => None
                        case Some(held) => Answer(held, Get(seen[o], x), Get(r.grants, x))
      {
        FoldOfNext(seen, before, r, o, x);
      }
      if Handled(seen, before).Some? {
        HandledNext(seen, before, r, Handled(seen, before).value);
      } else {
        var o, x :| o in seen && FoldOf(seen, before, o, x).None?;
        assert FoldOf(seen, records, o, x).None?;
      }
    }
  }

  lemma HandledNext(seen: Tenants, before: seq<Record>, r: Record, held: Tenants)
    requires Handled(seen, before) == Some(held) && held.Keys == seen.Keys
    requires forall o, x :: o in seen ==> FoldOf(seen, before, o, x) == Some(Get(held[o], x))
    ensures Handled(seen, before + [r]).Some? <==> AllFold(seen, before + [r])
    ensures Handled(seen, before + [r]).Some? ==>
              var after := Handled(seen, before + [r]).value;
              after.Keys == seen.Keys && forall o, x :: o in seen ==>
                  FoldOf(seen, before + [r], o, x) == Some(Get(after[o], x))
  {
    var records, p := before + [r], r.organisation;
    assert records[..|records| - 1] == before;
    forall o, x | o in seen
      ensures FoldOf(seen, records, o, x)
              == if p != o then Some(Get(held[o], x)) else Answer(Get(held[o], x), Get(seen[o], x), Get(r.grants, x))
    {
      FoldOfNext(seen, before, r, o, x);
    }
    if p in seen {
      AnswersExactly(held[p], seen[p], r.grants);
      if Handled(seen, records).None? {
        var x :| !OneAnswers(held[p], seen[p], r.grants, x);
        assert FoldOf(seen, records, p, x).None?;
      }
    }
  }

  lemma {:induction false} WantsOfKind(records: seq<Record>, isPublic: bool, o: Organisation, x: Attribute)
    ensures Wants(OfKind(records, isPublic), o, x) == if o.PublicBody? == isPublic then Wants(records, o, x) else []
  {
    if records != [] {
      var before, r := OfKind(records[..|records| - 1], isPublic), records[|records| - 1];
      WantsOfKind(records[..|records| - 1], isPublic, o, x);
      if r.organisation.PublicBody? == isPublic {
        WantsNext(before, r, o, x);
      } else {
        assert before + [] == before;
      }
    }
  }

  lemma SameGrants(a: Tenants, b: Tenants)
    requires a.Keys == b.Keys && forall o, x :: o in a ==> Get(a[o], x) == Get(b[o], x)
    ensures a == b
  {
    forall o | o in a ensures a[o] == b[o] {
      assert Get(a[o], Enabled) == Get(b[o], Enabled) && Get(a[o], InValidation) == Get(b[o], InValidation)
             && Get(a[o], Appointed) == Get(b[o], Appointed);
    }
  }

  /** A batch: its public bodies, then, with the tenants read again, its private ones. */
  function HandledByKind(tenants: Tenants, batch: seq<Record>): Option<Tenants> {
    match Handled(tenants, OfKind(batch, true))
    case None => None
    case Some(between) => Handled(between, OfKind(batch, false))
  }

  /** Public and private organisations do not interfere, so a batch may be split between them. */
  lemma KindsTogether(tenants: Tenants, batch: seq<Record>)
    ensures HandledByKind(tenants, batch) == Handled(tenants, batch)
  {
    HandledExactly(tenants, batch);
    HandledExactly(tenants, OfKind(batch, true));
    forall o, x, isPublic | o in tenants
      ensures Wants(OfKind(batch, isPublic), o, x) == if o.PublicBody? == isPublic then Wants(batch, o, x) else []
    {
      WantsOfKind(batch, isPublic, o, x);
    }
    if Handled(tenants, OfKind(batch, true)).Some? {
      PrivateBodiesNext(tenants, batch, Handled(tenants, OfKind(batch, true)).value);
    } else {
      var o, x :| o in tenants && FoldOf(tenants, OfKind(batch, true), o, x).None?;
      assert FoldOf(tenants, batch, o, x).None?;
    }
  }

  lemma PrivateBodiesNext(tenants: Tenants, batch: seq<Record>, between: Tenants)
    requires Handled(tenants, OfKind(batch, true)) == Some(between)
    ensures Handled(between, OfKind(batch, false)) == Handled(tenants, batch)
  {
    HandledExactly(tenants, batch);
    HandledExactly(tenants, OfKind(batch, true));
    HandledExactly(between, OfKind(batch, false));
    forall o, x | o in tenants
      ensures o in between && FoldOf(between, OfKind(batch, false), o, x) == FoldOf(tenants, batch, o, x)
    {
      WantsOfKind(batch, true, o, x);
      WantsOfKind(batch, false, o, x);
      assert FoldOf(tenants, OfKind(batch, true), o, x) == Some(Get(between[o], x));
    }
    if Handled(tenants, batch).Some? && Handled(between, OfKind(batch, false)).Some? {
      var a, b := Handled(tenants, batch).value, Handled(between, OfKind(batch, false)).value;
      forall o, x | o in a ensures Get(a[o], x) == Get(b[o], x) {
        assert FoldOf(tenants, batch, o, x) == Some(Get(a[o], x));
      }
      SameGrants(a, b);
    }
  }

  /* ---- what the file asks for: the last record of an organisation decides ---- */

  function Applied(tenants: Tenants, records: seq<Record>): Tenants {
    if records == [] then tenants
    else
      var before, r := Applied(tenants, records[..|records| - 1]), records[|records| - 1];
      if r.organisation in before then before[r.organisation := r.grants] else before
  }

  lemma {:induction false} AppliedAt(tenants: Tenants, records: seq<Record>, o: Organisation, x: Attribute)
    ensures o in Applied(tenants, records) <==> o in tenants
    ensures o in tenants ==>
              var wants := Wants(records, o, x);
              Get(Applied(tenants, records)[o], x) == if wants != [] then wants[|wants| - 1] else Get(tenants[o], x)
  {
    if records != [] {
      AppliedAt(tenants, records[..|records| - 1], o, x);
      AppliedAt(tenants, records[..|records| - 1], records[|records| - 1].organisation, x);
    }
  }

  /** If a record differs from what was read, the last one does. */
  predicate LastDecides(seen: bool, wants: seq<bool>) {
    Differs(seen, wants) ==> wants[|wants| - 1] != seen
  }

  lemma FoldIsLast(seen: bool, wants: seq<bool>)
    requires Fold(seen, wants).Some?
    ensures Fold(seen, wants).value == (if wants != [] then wants[|wants| - 1] else seen) <==> LastDecides(seen, wants)
  {
    FoldExactly(seen, wants);
    if wants != [] && wants[|wants| - 1] != seen {
      assert Differs(seen, wants);
    }
  }

  /** A batch does what the file asks for if and only if, for every tenant and attribute, no assignment is
      asked for twice, and no record that differs from what was read is followed by one that does not. */
  lemma BatchIsExact(tenants: Tenants, batch: seq<Record>)
    ensures Handled(tenants, batch) == Some(Applied(tenants, batch))
            <==> forall o, x :: o in tenants ==>
                   !AskedTwice(Get(tenants[o], x), Wants(batch, o, x))
                     && LastDecides(Get(tenants[o], x), Wants(batch, o, x))
  {
    HandledExactly(tenants, batch);
    forall o, x | o in tenants
      ensures o in Applied(tenants, batch)
      ensures FoldOf(tenants, batch, o, x) == Some(Get(Applied(tenants, batch)[o], x))
              <==>
              !AskedTwice(Get(tenants[o], x), Wants(batch, o, x))
              && LastDecides(Get(tenants[o], x), Wants(batch, o, x))
    {
      AppliedAt(tenants, batch, o, x);
      FoldExactly(Get(tenants[o], x), Wants(batch, o, x));
      if FoldOf(tenants, batch, o, x).Some? {
        FoldIsLast(Get(tenants[o], x), Wants(batch, o, x));
      }
    }
    forall o ensures o in Applied(tenants, batch) <==> o in tenants {
      AppliedAt(tenants, batch, o, Enabled);
    }
    if AllFold(tenants, batch) && forall o, x :: o in tenants ==>
        FoldOf(tenants, batch, o, x) == Some(Get(Applied(tenants, batch)[o], x)) {
      SameGrants(Handled(tenants, batch).value, Applied(tenants, batch));
    }
  }

  /* ---- the file in batches ---- */

  function Min(a: nat, b: nat): nat {
    if a < b then a else b
  }

  function BatchesFrom(file: seq<Line>, fromLine: nat, batchSize: nat): seq<seq<Record>>
    requires fromLine >= 1 && batchSize >= 1
    decreases |file| + 1 - fromLine
  {
    if fromLine > |file| then []
    else
      [Parsed(file[fromLine - 1..Min(fromLine - 1 + batchSize, |file|)])]
      + BatchesFrom(file, fromLine + batchSize, batchSize)
  }

  function Batches(file: seq<Line>, batchSize: nat): seq<seq<Record>>
    requires batchSize >= 1
  {
    BatchesFrom(file, 1, batchSize)
  }

  function Joined(batches: seq<seq<Record>>): seq<Record> {
    if batches == [] then [] else batches[0] + Joined(batches[1..])
  }

  lemma {:induction false} ParsedConcat(a: seq<Line>, b: seq<Line>)
    ensures Parsed(a + b) == Parsed(a) + Parsed(b)
  {
    if b == [] {
      assert a + b == a && Parsed(a) + [] == Parsed(a);
    } else {
      assert (a + b)[..|a + b| - 1] == a + b[..|b| - 1];
      ParsedConcat(a, b[..|b| - 1]);
    }
  }

  /** Every valid record is in exactly one batch, in the order of the file, for every batch size. */
  lemma {:induction false} BatchesJoin(file: seq<Line>, fromLine: nat, batchSize: nat)
    requires fromLine >= 1 && batchSize >= 1
    decreases |file| + 1 - fromLine
    ensures Joined(BatchesFrom(file, fromLine, batchSize)) == Parsed(file[Min(fromLine - 1, |file|)..])
  {
    if fromLine <= |file| {
      var end := Min(fromLine - 1 + batchSize, |file|);
      BatchesJoin(file, fromLine + batchSize, batchSize);
      ParsedConcat(file[fromLine - 1..end], file[end..]);
      assert file[fromLine - 1..] == file[fromLine - 1..end] + file[end..];
    }
  }

  function Outcome(tenants: Tenants, batches: seq<seq<Record>>): Option<Tenants>
    decreases |batches|
  {
    if batches == [] then Some(tenants)
    else
      match Handled(tenants, batches[0])
      case None => None
      case Some(next) => Outcome(next, batches[1..])
  }

  /** No batch asks twice for an assignment, and for every tenant and attribute the last batch that has
      records of the tenant ends as the last of them wants. */
  ghost predicate EndsAsAsked(tenants: Tenants, batches: seq<seq<Record>>)
    decreases |batches|
  {
    batches == [] ||
    (var seen, first, rest := tenants, batches[0], batches[1..];
     && (forall o, x :: o in seen ==> !AskedTwice(Get(seen[o], x), Wants(first, o, x)))
     && (forall o, x :: o in seen && Wants(Joined(rest), o, x) == [] ==>
         LastDecides(Get(seen[o], x), Wants(first, o, x)))
     && (Handled(seen, first).Some? ==> EndsAsAsked(Handled(seen, first).value, rest)))
  }

  lemma {:induction false} WantsConcat(a: seq<Record>, b: seq<Record>, o: Organisation, x: Attribute)
    ensures Wants(a + b, o, x) == Wants(a, o, x) + Wants(b, o, x)
  {
    if b == [] {
      assert a + b == a;
    } else {
      assert (a + b)[..|a + b| - 1] == a + b[..|b| - 1];
      WantsConcat(a, b[..|b| - 1], o, x);
    }
  }

  /** Tenants without records keep what they have. */
  lemma {:induction false} OutcomeOfOthers(tenants: Tenants, batches: seq<seq<Record>>, o: Organisation, x: Attribute)
    requires o in tenants && Outcome(tenants, batches).Some? && Wants(Joined(batches), o, x) == []
    decreases |batches|
    ensures o in Outcome(tenants, batches).value && Get(Outcome(tenants, batches).value[o], x) == Get(tenants[o], x)
  {
    if batches != [] {
      WantsConcat(batches[0], Joined(batches[1..]), o, x);
      HandledExactly(tenants, batches[0]);
      assert FoldOf(tenants, batches[0], o, x) == Some(Get(tenants[o], x));
      OutcomeOfOthers(Handled(tenants, batches[0]).value, batches[1..], o, x);
    }
  }

  lemma {:induction false} OutcomeKeys(tenants: Tenants, batches: seq<seq<Record>>)
    requires Outcome(tenants, batches).Some?
    decreases |batches|
    ensures Outcome(tenants, batches).value.Keys == tenants.Keys
  {
    if batches != [] {
      HandledExactly(tenants, batches[0]);
      OutcomeKeys(Handled(tenants, batches[0]).value, batches[1..]);
    }
  }

  /** One tenant and attribute after a first batch `first` that left `next`, with `rest` to come: what the
      whole file asks for is what the rest asks for, if it has a record of the tenant, or what the batch
      asks for. */
  lemma AskedAfter(tenants: Tenants, first: seq<Record>, rest: seq<Record>, next: Tenants, o: Organisation,
                   x: Attribute)
    requires o in tenants && Handled(tenants, first) == Some(next)
    ensures o in next && o in Applied(tenants, first + rest) && o in Applied(next, rest)
    ensures Wants(rest, o, x) != [] ==> Get(Applied(tenants, first + rest)[o], x) == Get(Applied(next, rest)[o], x)
    ensures Wants(rest, o, x) == [] ==>
              Get(Applied(next, rest)[o], x) == Get(next[o], x)
              && (Get(Applied(tenants, first + rest)[o], x) == Get(next[o], x)
                  <==> LastDecides(Get(tenants[o], x), Wants(first, o, x)))
  {
    HandledExactly(tenants, first);
    AppliedAt(tenants, first + rest, o, x);
    AppliedAt(next, rest, o, x);
    WantsConcat(first, rest, o, x);
    assert FoldOf(tenants, first, o, x) == Some(Get(next[o], x));
    FoldIsLast(Get(tenants[o], x), Wants(first, o, x));
  }

  lemma NoneAskedTwice(tenants: Tenants, batch: seq<Record>)
    ensures Handled(tenants, batch).Some? <==>
              forall o, x :: o in tenants ==> !AskedTwice(Get(tenants[o], x), Wants(batch, o, x))
  {
    HandledExactly(tenants, batch);
    forall o, x | o in tenants ensures FoldOf(tenants, batch, o, x).Some? <==>
        !AskedTwice(Get(tenants[o], x), Wants(batch, o, x)) {
      FoldExactly(Get(tenants[o], x), Wants(batch, o, x));
    }
  }

  lemma AppliedKeys(tenants: Tenants, records: seq<Record>)
    ensures Applied(tenants, records).Keys == tenants.Keys
  {
    forall o ensures o in Applied(tenants, records) <==> o in tenants {
      AppliedAt(tenants, records, o, Enabled);
    }
  }

  /** The import leaves every tenant as the last of its records asks, whatever the batches, if and only if
      `EndsAsAsked`. */
  lemma {:induction false} FileIsExact(tenants: Tenants, batches: seq<seq<Record>>)
    decreases |batches|
    ensures Outcome(tenants, batches) == Some(Applied(tenants, Joined(batches))) <==> EndsAsAsked(tenants, batches)
  {
    if batches != [] {
      NoneAskedTwice(tenants, batches[0]);
      if Handled(tenants, batches[0]).Some? {
        var next, rest := Handled(tenants, batches[0]).value, batches[1..];
        FileIsExact(next, rest);
        FileIsExactNext(tenants, batches[0], rest, next);
      }
    }
  }

  lemma FileIsExactNext(tenants: Tenants, first: seq<Record>, rest: seq<seq<Record>>, next: Tenants)
    requires Handled(tenants, first) == Some(next)
    ensures Outcome(next, rest) == Some(Applied(tenants, first + Joined(rest)))
            <==> Outcome(next, rest) == Some(Applied(next, Joined(rest)))
                 && forall o, x :: o in tenants && Wants(Joined(rest), o, x) == [] ==>
                        LastDecides(Get(tenants[o], x), Wants(first, o, x))
  {
    var asked, askedNext := Applied(tenants, first + Joined(rest)), Applied(next, Joined(rest));
    HandledExactly(tenants, first);
    AppliedKeys(tenants, first + Joined(rest));
    AppliedKeys(next, Joined(rest));
    if Outcome(next, rest).Some? {
      var end := Outcome(next, rest).value;
      OutcomeKeys(next, rest);
      forall o, x | o in tenants
        ensures Get(end[o], x) == Get(asked[o], x)
                <==> Get(end[o], x) == Get(askedNext[o], x)
                     && (Wants(Joined(rest), o, x) == [] ==> LastDecides(Get(tenants[o], x), Wants(first, o, x)))
      {
        AskedAfter(tenants, first, Joined(rest), next, o, x);
        if Wants(Joined(rest), o, x) == [] {
          OutcomeOfOthers(next, rest, o, x);
        }
      }
      if forall o, x :: o in end ==> Get(end[o], x) == Get(asked[o], x) {
        SameGrants(end, asked);
      }
      if forall o, x :: o in end ==> Get(end[o], x) == Get(askedNext[o], x) {
        SameGrants(end, askedNext);
      }
    }
  }

  /** So two batch sizes of which each ends as asked leave the same tenants... */
  lemma BatchSizesAgree(tenants: Tenants, file: seq<Line>, one: nat, other: nat)
    requires one >= 1 && other >= 1
    requires EndsAsAsked(tenants, Batches(file, one)) && EndsAsAsked(tenants, Batches(file, other))
    ensures Outcome(tenants, Batches(file, one)) == Outcome(tenants, Batches(file, other))
            == Some(Applied(tenants, Parsed(file)))
  {
    assert file[0..] == file;
    BatchesJoin(file, 1, one);
    BatchesJoin(file, 1, other);
    FileIsExact(tenants, Batches(file, one));
    FileIsExact(tenants, Batches(file, other));
  }

  predicate ListedOnce(records: seq<Record>) {
    forall i, k :: 0 <= i < k < |records| ==> records[i].organisation != records[k].organisation
  }

  lemma {:induction false} WantsOnce(records: seq<Record>, o: Organisation, x: Attribute)
    requires ListedOnce(records)
    ensures |Wants(records, o, x)| <= 1
    ensures Wants(records, o, x) != [] ==> exists k :: 0 <= k < |records| && records[k].organisation == o
  {
    if records != [] {
      WantsOnce(records[..|records| - 1], o, x);
    }
  }

  /** ... and every batching does in which no batch lists an organisation twice. */
  lemma {:induction false} ListedOnceEndsAsAsked(tenants: Tenants, batches: seq<seq<Record>>)
    requires forall b :: b in batches ==> ListedOnce(b)
    decreases |batches|
    ensures EndsAsAsked(tenants, batches)
  {
    if batches != [] {
      forall o, x ensures |Wants(batches[0], o, x)| <= 1 {
        WantsOnce(batches[0], o, x);
      }
      if Handled(tenants, batches[0]).Some? {
        ListedOnceEndsAsAsked(Handled(tenants, batches[0]).value, batches[1..]);
      }
    }
  }

  lemma OneBatch(tenants: Tenants, batch: seq<Record>)
    ensures Outcome(tenants, [batch]) == Handled(tenants, batch)
  {
    assert [batch][1..] == [];
  }

  lemma TwoBatches(tenants: Tenants, first: seq<Record>, second: seq<Record>)
    ensures Outcome(tenants, [first, second])
            == match Handled(tenants, first) case None => None case Some(next) => Handled(next, second)
  {
    assert [first, second][1..] == [second];
    if Handled(tenants, first).Some? {
      OneBatch(Handled(tenants, first).value, second);
    }
  }

  const GIVEN := Grants(true, false, false)

  lemma InOneBatch(o: Organisation)
    ensures Handled(map[o := NO_GRANTS], [Record(o, GIVEN), Record(o, NO_GRANTS)]) == Some(map[o := GIVEN])
    ensures Handled(map[o := NO_GRANTS], [Record(o, GIVEN), Record(o, GIVEN)]) == None
  {
    var yes, no := Record(o, GIVEN), Record(o, NO_GRANTS);
    HandledOne(map[o := NO_GRANTS], yes);
    assert [yes, no][..1] == [yes] && [yes, yes][..1] == [yes];
    assert map[o := NO_GRANTS][o := GIVEN] == map[o := GIVEN] && map[o := GIVEN][o := GIVEN] == map[o := GIVEN];
  }

  lemma OneByOne(o: Organisation)
    ensures Handled(map[o := NO_GRANTS], [Record(o, GIVEN)]) == Some(map[o := GIVEN])
    ensures Handled(map[o := GIVEN], [Record(o, NO_GRANTS)]) == Some(map[o := NO_GRANTS])
    ensures Handled(map[o := GIVEN], [Record(o, GIVEN)]) == Some(map[o := GIVEN])
  {
    HandledOne(map[o := NO_GRANTS], Record(o, GIVEN));
    HandledOne(map[o := GIVEN], Record(o, NO_GRANTS));
    HandledOne(map[o := GIVEN], Record(o, GIVEN));
    assert map[o := NO_GRANTS][o := GIVEN] == map[o := GIVEN] && map[o := GIVEN][o := GIVEN] == map[o := GIVEN];
    assert map[o := GIVEN][o := NO_GRANTS] == map[o := NO_GRANTS];
  }

  /** An organisation listed twice.  Given an attribute by its first record and not by its second, it keeps
      it when both are in one batch and loses it when they are not; given it by both, the import fails when
      they are in one batch and not otherwise. */
  lemma BatchSizeMatters(o: Organisation)
    ensures var tenants, yes, no := map[o := NO_GRANTS], Some(Record(o, GIVEN)), Some(Record(o, NO_GRANTS));
            && Outcome(tenants, Batches([yes, no], 2)) == Some(map[o := GIVEN])
            && Outcome(tenants, Batches([yes, no], 1)) == Some(tenants)
            && Outcome(tenants, Batches([yes, yes], 2)) == None
            && Outcome(tenants, Batches([yes, yes], 1)) == Some(map[o := GIVEN])
  {
    var yes, no, tenants := Record(o, GIVEN), Record(o, NO_GRANTS), map[o := NO_GRANTS];
    BatchesOfTwo(Some(yes), Some(no));
    BatchesOfTwo(Some(yes), Some(yes));
    OneBatch(tenants, [yes, no]);
    OneBatch(tenants, [yes, yes]);
    TwoBatches(tenants, [yes], [no]);
    TwoBatches(tenants, [yes], [yes]);
    InOneBatch(o);
    OneByOne(o);
  }

  lemma HandledOne(tenants: Tenants, r: Record)
    requires r.organisation in tenants
    ensures Handled(tenants, [r])
            == match Answers(tenants[r.organisation], tenants[r.organisation], r.grants)
               case None => None
               case Some(g) => Some(tenants[r.organisation := g])
  {
    assert [r][..0] == [] && Handled(tenants, [r][..0]) == Some(tenants);
  }

  lemma ParsedOne(a: Line)
    requires a.Some?
    ensures Parsed([a]) == [a.value]
  {
    assert [a][..0] == [];
  }

  lemma BatchesOfTwo(a: Line, b: Line)
    requires a.Some? && b.Some?
    ensures Batches([a, b], 2) == [[a.value, b.value]] && Batches([a, b], 1) == [[a.value], [b.value]]
  {
    var file := [a, b];
    ParsedOne(a);
    ParsedOne(b);
    ParsedConcat([a], [b]);
    assert [a] + [b] == file && file[0..2] == file && file[0..1] == [a] && file[1..2] == [b];
    assert |file| == 2 && BatchesFrom(file, 3, 2) == [] && BatchesFrom(file, 3, 1) == [];
    assert BatchesFrom(file, 2, 1) == [Parsed(file[1..2])] + [];
    assert BatchesFrom(file, 1, 1) == [Parsed(file[0..1])] + BatchesFrom(file, 2, 1);
    assert BatchesFrom(file, 1, 2) == [Parsed(file[0..2])] + [];
    assert [[a.value]] + [[b.value]] == [[a.value], [b.value]] && [a.value] + [b.value] == [a.value, b.value];
  }

  /* ---- codes ---- */

  lemma {:induction false} CodesSplit(records: seq<Record>)
    ensures multiset(CodesOf(OfKind(records, true))) + multiset(CodesOf(OfKind(records, false)))
            == multiset(CodesOf(records))
  {
    if records != [] {
      var before, r := records[..|records| - 1], records[|records| - 1];
      CodesSplit(before);
      CodesNext(before, r);
      assert before + [r] == records;
      CodesNext(OfKind(before, r.organisation.PublicBody?), r);
      assert OfKind(before, !r.organisation.PublicBody?) + [] == OfKind(before, !r.organisation.PublicBody?);
    }
  }

  lemma CodesNext(records: seq<Record>, r: Record)
    ensures CodesOf(records + [r]) == CodesOf(records) + [r.organisation.code]
  {
  }

  lemma CodesConcat(a: seq<Record>, b: seq<Record>)
    ensures CodesOf(a + b) == CodesOf(a) + CodesOf(b)
  {
  }

  lemma {:induction false} FailedPrefix(seen: Tenants, records: seq<Record>, i: nat)
    requires i <= |records| && Handled(seen, records[..i]).None?
    decreases |records|
    ensures Handled(seen, records).None?
  {
    if i == |records| {
      assert records[..i] == records;
    } else {
      assert records[..|records| - 1][..i] == records[..i];
      FailedPrefix(seen, records[..|records| - 1], i);
    }
  }

  lemma CodesGrow(codes: seq<string>, done: seq<Record>, more: seq<string>, records: seq<Record>)
    requires multiset(codes) == multiset(CodesOf(done)) && multiset(more) == multiset(CodesOf(records))
    ensures multiset(codes + more) == multiset(CodesOf(done + records))
  {
    CodesConcat(done, records);
  }

  /** One turn of the loop, past the end of the file included. */
  lemma FirstBatch(tenants: Tenants, file: seq<Line>, fromLine: nat, batchSize: nat, records: seq<Record>)
    requires fromLine >= 1 && batchSize >= 1
    requires records == Parsed(file[Min(fromLine - 1, |file|)..Min(fromLine - 1 + batchSize, |file|)])
    ensures Outcome(tenants, BatchesFrom(file, fromLine, batchSize))
            == match Handled(tenants, records)
               case None => None
               case Some(next) => Outcome(next, BatchesFrom(file, fromLine + batchSize, batchSize))
    ensures Joined(BatchesFrom(file, fromLine, batchSize))
            == records + Joined(BatchesFrom(file, fromLine + batchSize, batchSize))
  {
    var rest := BatchesFrom(file, fromLine + batchSize, batchSize);
    if fromLine <= |file| {
      assert ([records] + rest)[1..] == rest;
    }
  }

  /** What the batches of the file are to come to, and its records. */
  datatype Goal = Goal(outcome: Option<Tenants>, records: seq<Record>)

  /** Where the loop stands before line `fromLine`, when it has handled the records `done`. */
  ghost predicate OnTheWay(goal: Goal, tenants: Tenants, done: seq<Record>, file: seq<Line>, fromLine: nat,
                           batchSize: nat)
    requires fromLine >= 1 && batchSize >= 1
  {
    && Outcome(tenants, BatchesFrom(file, fromLine, batchSize)) == goal.outcome
    && done + Joined(BatchesFrom(file, fromLine, batchSize)) == goal.records
  }

  lemma AtTheStart(tenants: Tenants, file: seq<Line>, batchSize: nat)
    requires batchSize >= 1
    ensures OnTheWay(Goal(Outcome(tenants, Batches(file, batchSize)), Parsed(file)), tenants, [], file, 1, batchSize)
  {
    BatchesJoin(file, 1, batchSize);
    assert file[0..] == file && [] + Parsed(file) == Parsed(file);
  }

  lemma AtTheEnd(goal: Goal, tenants: Tenants, done: seq<Record>, file: seq<Line>, fromLine: nat, batchSize: nat)
    requires fromLine > |file| && batchSize >= 1 && OnTheWay(goal, tenants, done, file, fromLine, batchSize)
    ensures goal == Goal(Some(tenants), done)
  {
    assert done + [] == done;
  }

  ghost predicate OthersStay(before: Tenants, after: Tenants, o: Organisation) {
    after.Keys == before.Keys && forall p :: p in before && p != o ==> after[p] == before[p]
  }

  lemma OthersStayThrough(before: Tenants, between: Tenants, after: Tenants, o: Organisation)
    requires OthersStay(before, between, o) && OthersStay(between, after, o)
    ensures OthersStay(before, after, o)
  {
  }

  class Importer {
    /** The attributes of every tenant that the platform knows. */
    var tenants: Tenants

    constructor (tenants: Tenants)
      ensures this.tenants == tenants
    {
      this.tenants := tenants;
    }

    /** The lines `fromLine` to `fromLine + batchSize - 1`, counted from 1, and those of them that parse. */
    method GetBatch(file: seq<Line>, fromLine: nat, batchSize: nat) returns (processed: nat, records: seq<Record>)
      requires fromLine >= 1
      ensures processed == Min(fromLine - 1 + batchSize, |file|) - Min(fromLine - 1, |file|)
      ensures records == Parsed(file[Min(fromLine - 1, |file|)..Min(fromLine - 1 + batchSize, |file|)])
    {
      var start, end := Min(fromLine - 1, |file|), Min(fromLine - 1 + batchSize, |file|);
      return end - start, Parsed(file[start..end]);
    }

    /** Assigns or unassigns one attribute of one tenant, where the tenant was not read as wanted. */
    method SetGrant(o: Organisation, x: Attribute, seen: Grants, wanted: Grants) returns (ok: bool)
      requires o in tenants
      modifies this
      ensures OthersStay(old(tenants), tenants, o)
      ensures Step(Some(old(tenants)[o]), x, seen, wanted) == if ok then Some(tenants[o]) else None
    {
      if Get(wanted, x) == Get(seen, x) {
        assert With(tenants[o], x, Get(tenants[o], x)) == tenants[o];
        return true;
      }
      if Get(wanted, x) && Get(tenants[o], x) { return false; }
      tenants := tenants[o := With(tenants[o], x, Get(wanted, x))];
      return true;
    }

    /** The three attributes of one record. */
    method SetGrants(o: Organisation, seen: Grants, wanted: Grants) returns (ok: bool)
      requires o in tenants
      modifies this
      ensures OthersStay(old(tenants), tenants, o)
      ensures Answers(old(tenants)[o], seen, wanted) == if ok then Some(tenants[o]) else None
    {
      ghost var t0 := tenants;
      ok := SetGrant(o, Enabled, seen, wanted);
      if !ok { return; }
      ghost var t1 := tenants;
      ok := SetGrant(o, InValidation, seen, wanted);
      OthersStayThrough(t0, t1, tenants, o);
      if !ok { return; }
      ghost var t2 := tenants;
      ok := SetGrant(o, Appointed, seen, wanted);
      OthersStayThrough(t0, t2, tenants, o);
    }

    /** The records of a batch that are of one kind, matched with the tenants read before the first call. */
    method ProcessTenants(records: seq<Record>) returns (ok: bool)
      modifies this
      ensures if ok then Handled(old(tenants), records) == Some(tenants) else Handled(old(tenants), records) == None
    {
      var seen, i := tenants, 0;
      while i < |records|
        invariant 0 <= i <= |records| && Handled(seen, records[..i]) == Some(tenants) && tenants.Keys == seen.Keys
      {
        assert records[..i + 1][..i] == records[..i];
        var o := records[i].organisation;
        if o in seen {
          ghost var before := tenants;
          ok := SetGrants(o, seen[o], records[i].grants);
          assert ok ==> tenants == before[o := tenants[o]];
          if !ok {
            FailedPrefix(seen, records, i + 1);
            return;
          }
        }
        i := i + 1;
      }
      assert records[..i] == records;
      return true;
    }

    /** One batch: its public bodies, then its private ones. */
    method ProcessBatch(records: seq<Record>) returns (ok: bool, codes: seq<string>)
      modifies this
      ensures if ok then Handled(old(tenants), records) == Some(tenants) else Handled(old(tenants), records) == None
      ensures multiset(codes) == multiset(CodesOf(records))
    {
      var publicBodies, privateBodies := OfKind(records, true), OfKind(records, false);
      KindsTogether(tenants, records);
      CodesSplit(records);
      codes := CodesOf(publicBodies) + CodesOf(privateBodies);
      ok := ProcessTenants(publicBodies);
      if ok {
        ok := ProcessTenants(privateBodies);
      }
    }

    /** One turn of the batch loop. */
    method ProcessNext(file: seq<Line>, fromLine: nat, batchSize: nat, ghost goal: Goal, ghost done: seq<Record>)
      returns (ok: bool, processed: nat, codes: seq<string>, ghost records: seq<Record>)
      requires fromLine >= 1 && batchSize >= 1 && OnTheWay(goal, tenants, done, file, fromLine, batchSize)
      modifies this
      ensures ok ==> OnTheWay(goal, tenants, done + records, file, fromLine + batchSize, batchSize)
      ensures !ok ==> goal.outcome == None
      ensures multiset(codes) == multiset(CodesOf(records))
      ensures processed == 0 <==> fromLine > |file|
    {
      var batch;
      processed, batch := GetBatch(file, fromLine, batchSize);
      records := batch;
      FirstBatch(tenants, file, fromLine, batchSize, batch);
      ghost var rest := Joined(BatchesFrom(file, fromLine + batchSize, batchSize));
      assert done + (records + rest) == done + records + rest;
      ok, codes := ProcessBatch(batch);
    }

    /** The batch loop, which ends with a batch without lines. */
    method Process(file: seq<Line>, batchSize: nat, ghost goal: Goal) returns (ok: bool, codes: seq<string>)
      requires batchSize >= 1 && OnTheWay(goal, tenants, [], file, 1, batchSize)
      modifies this
      ensures goal.outcome == if ok then Some(tenants) else None
      ensures ok ==> multiset(codes) == multiset(CodesOf(goal.records))
    {
      var fromLine, complete := 1, false;
      ghost var done := [];
      ok, codes := true, [];
      assert multiset(codes) == multiset(CodesOf(done));
      while !complete
        invariant fromLine >= 1 && OnTheWay(goal, tenants, done, file, fromLine, batchSize)
        invariant multiset(codes) == multiset(CodesOf(done))
        invariant complete ==> fromLine > |file|
        decreases !complete, |file| + 1 - fromLine
      {
        var processed, batchCodes;
        ghost var records;
        ok, processed, batchCodes, records := ProcessNext(file, fromLine, batchSize, goal, done);
        if !ok { return; }
        CodesGrow(codes, done, batchCodes, records);
        codes, done := codes + batchCodes, done + records;
        fromLine := fromLine + batchSize;
        complete := processed == 0;
      }
      AtTheEnd(goal, tenants, done, file, fromLine, batchSize);
      ok := true;
    }

    /** The whole file: what its batches come to one after the other, and the codes of all its records. */
    method ProcessFile(file: seq<Line>, batchSize: nat) returns (ok: bool, codes: seq<string>)
      requires batchSize >= 1
      modifies this
      ensures Outcome(old(tenants), Batches(file, batchSize)) == if ok then Some(tenants) else None
      ensures ok ==> multiset(codes) == multiset(CodesOf(Parsed(file)))
    {
      ghost var goal := Goal(Outcome(tenants, Batches(file, batchSize)), Parsed(file));
      AtTheStart(tenants, file, batchSize);
      ok, codes := Process(file, batchSize, goal);
    }

    /** Tenants with an attribute whose code the file does not list lose all three. */
    method UnassignMissing(codes: seq<string>)
      modifies this
      ensures tenants == Unassigned(old(tenants), codes)
    {
      var pending := set o | o in tenants && tenants[o] != NO_GRANTS && o.code !in codes;
      ghost var all := pending;
      while pending != {}
        invariant pending <= all && tenants.Keys == old(tenants).Keys
        invariant forall o :: o in tenants ==>
                    tenants[o] == if o in all && o !in pending then NO_GRANTS else old(tenants)[o]
      {
        var o :| o in pending;
        var ok := SetGrants(o, tenants[o], NO_GRANTS);
        assert ok;
        pending := pending - {o};
      }
    }

    /** The whole import.  A file without valid records changes nothing beyond that and fails. */
    method Import(file: seq<Line>, batchSize: nat) returns (ok: bool)
      requires batchSize >= 1
      modifies this
      ensures ok <==> Parsed(file) != [] && Outcome(old(tenants), Batches(file, batchSize)).Some?
      ensures ok ==> tenants == Unassigned(Outcome(old(tenants), Batches(file, batchSize)).value, CodesOf(Parsed(file)))
      ensures Parsed(file) == [] ==> tenants == old(tenants)
    {
      var codes;
      ok, codes := ProcessFile(file, batchSize);
      if Parsed(file) == [] {
        NothingToHandle(old(tenants), file, batchSize);
      }
      if !ok { return; }
      assert |codes| == |multiset(codes)| == |multiset(CodesOf(Parsed(file)))| == |Parsed(file)|;
      if |codes| == 0 { return false; }
      SameCodes(tenants, codes, CodesOf(Parsed(file)));
      UnassignMissing(codes);
    }
  }

  lemma NothingToHandle(tenants: Tenants, file: seq<Line>, batchSize: nat)
    requires batchSize >= 1 && Parsed(file) == []
    ensures Outcome(tenants, Batches(file, batchSize)) == Some(tenants)
  {
    assert file[0..] == file;
    BatchesJoin(file, 1, batchSize);
    EmptyBatches(tenants, Batches(file, batchSize));
  }

  lemma {:induction false} EmptyBatches(tenants: Tenants, batches: seq<seq<Record>>)
    requires Joined(batches) == []
    decreases |batches|
    ensures Outcome(tenants, batches) == Some(tenants)
  {
    if batches != [] {
      assert |Joined(batches)| == |batches[0]| + |Joined(batches[1..])|;
      EmptyBatches(tenants, batches[1..]);
    }
  }

  function Unassigned(tenants: Tenants, codes: seq<string>): Tenants {
    map o | o in tenants :: if o.code in codes then tenants[o] else NO_GRANTS
  }

  lemma SameCodes(tenants: Tenants, a: seq<string>, b: seq<string>)
    requires multiset(a) == multiset(b)
    ensures Unassigned(tenants, a) == Unassigned(tenants, b)
  {
    forall c ensures c in a <==> c in b {
      assert c in a <==> c in multiset(a);
    }
  }

  /** What an import that ends as asked comes to for a tenant: the grants of its last record; without a
      record, none, unless an organisation of the other kind is listed under the same code. */
  lemma ImportedAt(tenants: Tenants, file: seq<Line>, batchSize: nat, o: Organisation, x: Attribute)
    requires batchSize >= 1 && o in tenants && EndsAsAsked(tenants, Batches(file, batchSize))
    ensures var outcome, records := Outcome(tenants, Batches(file, batchSize)), Parsed(file);
            && outcome.Some? && o in Unassigned(outcome.value, CodesOf(records))
            && var wants, left := Wants(records, o, x), Unassigned(outcome.value, CodesOf(records))[o];
               Get(left, x) == if wants != [] then wants[|wants| - 1]
                               else if exists k :: 0 <= k < |records| && records[k].organisation.code == o.code
                                 then Get(tenants[o], x)
                               else false
  {
    var records := Parsed(file);
    assert file[0..] == file;
    BatchesJoin(file, 1, batchSize);
    FileIsExact(tenants, Batches(file, batchSize));
    AppliedAt(tenants, records, o, x);
    CodeListed(records, o.code);
    if Wants(records, o, x) != [] {
      WantedIsListed(records, o, x);
    }
  }

  lemma CodeListed(records: seq<Record>, code: string)
    ensures code in CodesOf(records) <==> exists k :: 0 <= k < |records| && records[k].organisation.code == code
  {
    if k :| 0 <= k < |records| && records[k].organisation.code == code {
      assert CodesOf(records)[k] == code;
    }
  }

  lemma {:induction false} WantedIsListed(records: seq<Record>, o: Organisation, x: Attribute)
    requires Wants(records, o, x) != []
    ensures exists k :: 0 <= k < |records| && records[k].organisation == o
  {
    if records[|records| - 1].organisation != o {
      WantedIsListed(records[..|records| - 1], o, x);
    }
  }
}
