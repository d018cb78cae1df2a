/** client-assertion-validation: the gate that reads nothing but the denormalised entry. */
module Gate {
  import opened Wrappers
  import opened Domain
  import opened Tables
  import opened Effects
  import opened AgreementWriter
  import opened AuthorizationWriter
  import opened Platform
  import opened Coherence

  datatype GateError =
    | InvalidAgreementState(agreementState: Option<ItemState>)
    | InvalidEServiceState(descriptorState: Option<ItemState>)
    | InvalidPurposeState(purposeState: Option<ItemState>)
    | PurposeIdNotProvided

  datatype Validation = Successful | Failed(errors: seq<GateError>)

  /** The nested, partly undefined error lists that `failedValidation` flattens. */
  datatype Reported = Absent | One(error: GateError) | Many(inner: seq<Option<GateError>>)

  function Defined(errors: seq<Option<GateError>>): seq<GateError> {
    if errors == [] then []
    else (if errors[0].Some? then [errors[0].value] else []) + Defined(errors[1..])
  }

  function Flattened(errors: seq<Reported>): seq<GateError> {
    if errors == [] then []
    else
      (match errors[0]
       case Absent => []
       case One(e) => [e]
       case Many(inner) => Defined(inner)) + Flattened(errors[1..])
  }

  function Check(state: Option<ItemState>, error: GateError): Reported {
    if state != Some(ACTIVE) then One(error) else Absent
  }

  function ValidatePlatformState(e: TokenEntry): Validation
    requires e.ConsumerEntry?
  {
    var agreement := Check(e.agreementState, InvalidAgreementState(e.agreementState));
    var descriptor := Check(e.descriptorState, InvalidEServiceState(e.descriptorState));
    var purpose := Check(e.purposeState, InvalidPurposeState(e.purposeState));
    if agreement.Absent? && descriptor.Absent? && purpose.Absent? then Successful
    else Failed(Flattened([agreement, descriptor, purpose]))
  }

  function Validate(e: TokenEntry, purposeIdGiven: bool): Validation {
    if e.ApiEntry? then Successful
    else
      var platform := ValidatePlatformState(e);
      var purposeId := if purposeIdGiven then Absent else One(PurposeIdNotProvided);
      if platform.Successful? && purposeId.Absent? then Successful
      else Failed(Flattened([match platform
                             case Successful => Absent
                             case Failed(errors) => Many(seq(|errors|,
                                                             i requires 0 <= i < |errors| => Some(errors[i]))),
                             purposeId]))
  }

  lemma {:induction false} DefinedKeepsAll(errors: seq<GateError>)
    ensures Defined(seq(|errors|, i requires 0 <= i < |errors| => Some(errors[i]))) == errors
  {
    if errors != [] {
      var wrapped := seq(|errors|, i requires 0 <= i < |errors| => Some(errors[i]));
      var rest := errors[1..];
      assert wrapped[1..] == seq(|rest|, i requires 0 <= i < |rest| => Some(rest[i]));
      DefinedKeepsAll(rest);
    }
  }

  function Problems(e: TokenEntry): seq<GateError>
    requires e.ConsumerEntry?
  {
    (if e.agreementState == Some(ACTIVE) then [] else [InvalidAgreementState(e.agreementState)])
    + (if e.descriptorState == Some(ACTIVE) then [] else [InvalidEServiceState(e.descriptorState)])
    + (if e.purposeState == Some(ACTIVE) then [] else [InvalidPurposeState(e.purposeState)])
  }

  lemma FlattenedPair(first: Reported, second: Reported)
    ensures Flattened([first, second]) == Flattened([first]) + Flattened([second])
  {
    assert [first, second][1..] == [second];
    assert [first][1..] == [] && [second][1..] == [];
    assert Flattened([second]) == Flattened([second]) + [];
  }

  lemma PlatformProblems(e: TokenEntry)
    requires e.ConsumerEntry?
    ensures ValidatePlatformState(e) == if Problems(e) == [] then Successful else Failed(Problems(e))
  {
    var a, d, p := Check(e.agreementState, InvalidAgreementState(e.agreementState)),
                   Check(e.descriptorState, InvalidEServiceState(e.descriptorState)),
                   Check(e.purposeState, InvalidPurposeState(e.purposeState));
    assert [a, d, p][1..] == [d, p];
    FlattenedPair(d, p);
    assert Flattened([a, d, p]) == Problems(e);
  }

  lemma NoProblems(e: TokenEntry)
    requires e.ConsumerEntry?
    ensures Problems(e) == [] <==>
              e.agreementState == Some(ACTIVE) && e.descriptorState == Some(ACTIVE) && e.purposeState == Some(ACTIVE)
  {
  }

  /** The gate opens for an API entry whatever the assertion says, and for a consumer entry exactly
      when its three states are ACTIVE and the assertion names a purpose; otherwise it reports each
      failing check once, and no other. */
  lemma ValidationIsExact(e: TokenEntry, purposeIdGiven: bool)
    ensures e.ApiEntry? ==> Validate(e, purposeIdGiven) == Successful
    ensures e.ConsumerEntry? ==>
              (Validate(e, purposeIdGiven).Successful?
               <==> e.agreementState == Some(ACTIVE) && e.descriptorState == Some(ACTIVE)
                    && e.purposeState == Some(ACTIVE) && purposeIdGiven)
    ensures e.ConsumerEntry? && Validate(e, purposeIdGiven).Failed? ==>
              Validate(e, purposeIdGiven).errors
                == Problems(e) + (if purposeIdGiven then [] else [PurposeIdNotProvided])
  {
    if e.ApiEntry? {
      return;
    }
    PlatformProblems(e);
    NoProblems(e);
    var errors := Problems(e);
    DefinedKeepsAll(errors);
    var purposeId := if purposeIdGiven then Absent else One(PurposeIdNotProvided);
    FlattenedPair(if errors == [] then Absent
                  else Many(seq(|errors|, i requires 0 <= i < |errors| => Some(errors[i]))), purposeId);
  }

  /** Gate soundness: in a reachable state an accepted consumer entry has an ACTIVE purpose row and
      an ACTIVE agreement row, and its descriptor row, when there is one, is ACTIVE too. */
  lemma GateSoundness(j: Journal, s: Store, ms: seq<Message>, pk: TokenKey, purposeIdGiven: bool)
    requires Coherent(j, s)
    requires forall m :: m in ms ==> Admissible(j, m)
    requires var s1 := RunFrom(s, ms); pk in s1.tokens && s1.tokens[pk].ConsumerEntry?
    requires Validate(RunFrom(s, ms).tokens[pk], purposeIdGiven).Successful?
    ensures var s1 := RunFrom(s, ms);
            && pk.ClientKidPurpose?
            && pk.purpose in s1.rows.purposes && s1.rows.purposes[pk.purpose].state == ACTIVE
            && var r := Retrieve(s1.rows, pk.purpose);
               r.agreement.Some? && r.agreement.value.state == ACTIVE
                 && (r.catalog.Some? ==> r.catalog.value.state == ACTIVE)
  {
    ViewCoherence(j, s, ms);
    var s1 := RunFrom(s, ms);
    assert EntryCoherent(j, s1.rows, pk, s1.tokens[pk]);
    ValidationIsExact(s1.tokens[pk], purposeIdGiven);
  }

  /** Where all three rows exist, the gate decides exactly as the rows would. */
  lemma GateExactness(j: Journal, s: Store, ms: seq<Message>, pk: TokenKey)
    requires Coherent(j, s)
    requires forall m :: m in ms ==> Admissible(j, m)
    requires var s1 := RunFrom(s, ms); pk in s1.tokens && s1.tokens[pk].ConsumerEntry? && pk.ClientKidPurpose?
    requires Retrieve(RunFrom(s, ms).rows, pk.purpose).catalog.Some?
    ensures var s1 := RunFrom(s, ms);
            var r := Retrieve(s1.rows, pk.purpose);
            Validate(s1.tokens[pk], true).Successful?
            <==> r.purpose.value.state == ACTIVE && r.agreement.value.state == ACTIVE && r.catalog.value.state == ACTIVE
  {
    ViewCoherence(j, s, ms);
    var s1 := RunFrom(s, ms);
    assert EntryCoherent(j, s1.rows, pk, s1.tokens[pk]);
    ValidationIsExact(s1.tokens[pk], true);
  }

  /** Why soundness says "when there is one": an upgrade to a descriptor that has no row leaves the
      descriptor columns of the previous one in place, and the gate open. */
  lemma UpgradeWithoutCatalogRow(j: Journal, s: Store, m: AgreementMessage, pk: TokenKey)
    requires Coherent(j, s)
    requires pk in s.tokens && s.tokens[pk].ConsumerEntry? && Validate(s.tokens[pk], true).Successful?
    requires s.tokens[pk].agreementKey == Some(KeyOf(m.agreement))
    requires m.kind.AgreementUpgrade? && m.agreement.state == Active && m.agreement.stamps.upgrade.Some?
    requires IsLatest(Lookup(s.rows.agreements, KeyOf(m.agreement)), m.agreement.stamps.upgrade.value.when)
    requires !Outdated(Lookup(s.rows.agreements, KeyOf(m.agreement)), m)
    requires DescriptorKey(m.agreement.eservice, m.agreement.descriptor) !in s.rows.descriptors
    ensures var s1 := Handle(s, OnAgreement(m));
            && pk in s1.tokens && Validate(s1.tokens[pk], true).Successful?
            && s1.tokens[pk].descriptorKey == Some(DescriptorKey(m.agreement.eservice, m.agreement.descriptor))
            && s1.tokens[pk].descriptorKey.value !in s1.rows.descriptors
  {
    ValidationIsExact(s.tokens[pk], true);
    ValidationIsExact(Handle(s, OnAgreement(m)).tokens[pk], true);
  }
}
