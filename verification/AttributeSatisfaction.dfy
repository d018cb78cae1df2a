/** agreement-lifecycle: which of a tenant's attributes count, and whether they satisfy a descriptor. */
module AttributeSatisfaction {
  import opened Wrappers
  import opened Domain

  datatype Verifier = Verifier(id: TenantId, expiration: Option<int>, extension: Option<int>)

  datatype TenantAttribute =
    | CertifiedAttribute(id: AttributeId, revocation: Option<int>)
    | DeclaredAttribute(id: AttributeId, revocation: Option<int>)
    | VerifiedAttribute(id: AttributeId, verifiedBy: seq<Verifier>, revokedBy: seq<TenantId>)

  predicate VerificationRevoked(verifier: TenantId, revokedBy: seq<TenantId>) {
    exists r :: r in revokedBy && r == verifier
  }

  /** The extension, when there is one, takes the place of the expiration. */
  predicate VerificationExpired(v: Verifier, now: int) {
    if v.extension.Some? then v.extension.value <= now
    else if v.expiration.Some? then v.expiration.value <= now
    else false
  }

  predicate CountsAsCertified(a: TenantAttribute) {
    a.CertifiedAttribute? && a.revocation.None?
  }

  predicate CountsAsDeclared(a: TenantAttribute) {
    a.DeclaredAttribute? && a.revocation.None?
  }

  predicate CountsAsVerified(verifier: TenantId, now: int, a: TenantAttribute) {
    a.VerifiedAttribute?
    && exists v ::
         v in a.verifiedBy && v.id == verifier && !VerificationRevoked(verifier, a.revokedBy)
         && !VerificationExpired(v, now)
  }

  /** The ids of the attributes that a filter keeps, in order. */
  function Kept(attributes: seq<TenantAttribute>, keep: TenantAttribute -> bool): seq<AttributeId> {
    if attributes == [] then []
    else (if keep(attributes[0]) then [attributes[0].id] else []) + Kept(attributes[1..], keep)
  }

  function Certified(attributes: seq<TenantAttribute>): seq<AttributeId> {
    Kept(attributes, CountsAsCertified)
  }

  function Declared(attributes: seq<TenantAttribute>): seq<AttributeId> {
    Kept(attributes, CountsAsDeclared)
  }

  function Verified(verifier: TenantId, now: int, attributes: seq<TenantAttribute>): seq<AttributeId> {
    Kept(attributes, (a: TenantAttribute) => CountsAsVerified(verifier, now, a))
  }

  function Matching(group: seq<AttributeId>, held: seq<AttributeId>): seq<AttributeId> {
    if group == [] then []
    else (if group[0] in held then [group[0]] else []) + Matching(group[1..], held)
  }

  function NonEmpty(groups: seq<seq<AttributeId>>): seq<seq<AttributeId>> {
    if groups == [] then []
    else (if |groups[0]| > 0 then [groups[0]] else []) + NonEmpty(groups[1..])
  }

  predicate AttributesSatisfied(groups: seq<seq<AttributeId>>, held: seq<AttributeId>) {
    forall k :: 0 <= k < |NonEmpty(groups)| ==> |Matching(NonEmpty(groups)[k], held)| > 0
  }

  predicate CertifiedSatisfied(r: Requirements, attributes: seq<TenantAttribute>) {
    AttributesSatisfied(r.certified, Certified(attributes))
  }

  predicate DeclaredSatisfied(r: Requirements, attributes: seq<TenantAttribute>) {
    AttributesSatisfied(r.declared, Declared(attributes))
  }

  predicate VerifiedSatisfied(producer: TenantId, now: int, r: Requirements, attributes: seq<TenantAttribute>) {
    AttributesSatisfied(r.verified, Verified(producer, now, attributes))
  }

  /* ---- what the filters and the test come to ---- */

  lemma {:induction false} KeptExactly(attributes: seq<TenantAttribute>, keep: TenantAttribute -> bool, id: AttributeId)
    ensures id in Kept(attributes, keep) <==> exists a :: a in attributes && keep(a) && a.id == id
  {
    if attributes != [] {
      KeptExactly(attributes[1..], keep, id);
      assert forall a :: a in attributes <==> a == attributes[0] || a in attributes[1..];
    }
  }

  lemma {:induction false} MatchingExactly(group: seq<AttributeId>, held: seq<AttributeId>)
    ensures |Matching(group, held)| > 0 <==> exists a :: a in group && a in held
  {
    if group != [] {
      MatchingExactly(group[1..], held);
      assert forall a :: a in group <==> a == group[0] || a in group[1..];
    }
  }

  lemma {:induction false} NonEmptyExactly(groups: seq<seq<AttributeId>>, g: seq<AttributeId>)
    ensures g in NonEmpty(groups) <==> g in groups && |g| > 0
  {
    if groups != [] {
      NonEmptyExactly(groups[1..], g);
      assert forall h :: h in groups <==> h == groups[0] || h in groups[1..];
    }
  }

  /** A conjunction of disjunctions, the empty disjunctions being left out. */
  lemma SatisfiedExactly(groups: seq<seq<AttributeId>>, held: seq<AttributeId>)
    ensures AttributesSatisfied(groups, held) <==>
              forall g :: g in groups && |g| > 0 ==> exists a :: a in g && a in held
  {
    forall g ensures g in NonEmpty(groups) <==> g in groups && |g| > 0 {
      NonEmptyExactly(groups, g);
    }
    forall g ensures |Matching(g, held)| > 0 <==> exists a :: a in g && a in held {
      MatchingExactly(g, held);
    }
    if AttributesSatisfied(groups, held) {
      forall g | g in groups && |g| > 0 ensures exists a :: a in g && a in held {
        assert g in NonEmpty(groups);
      }
    } else {
      var k :| 0 <= k < |NonEmpty(groups)| && |Matching(NonEmpty(groups)[k], held)| == 0;
      assert NonEmpty(groups)[k] in groups;
    }
  }

  predicate Includes(more: seq<TenantAttribute>, fewer: seq<TenantAttribute>) {
    forall a :: a in fewer ==> a in more
  }

  lemma SatisfactionIsMonotone(groups: seq<seq<AttributeId>>, fewer: seq<TenantAttribute>, more: seq<TenantAttribute>,
                               keep: TenantAttribute -> bool)
    requires Includes(more, fewer)
    ensures AttributesSatisfied(groups, Kept(fewer, keep)) ==> AttributesSatisfied(groups, Kept(more, keep))
  {
    forall id ensures id in Kept(fewer, keep) ==> id in Kept(more, keep) {
      KeptExactly(fewer, keep, id);
      KeptExactly(more, keep, id);
    }
    SatisfiedExactly(groups, Kept(fewer, keep));
    SatisfiedExactly(groups, Kept(more, keep));
  }

  /** A tenant that gains attributes satisfies at least what it satisfied before. */
  lemma GainingSatisfiesMore(r: Requirements, producer: TenantId, now: int, fewer: seq<TenantAttribute>,
                             more: seq<TenantAttribute>)
    requires Includes(more, fewer)
    ensures CertifiedSatisfied(r, fewer) ==> CertifiedSatisfied(r, more)
    ensures DeclaredSatisfied(r, fewer) ==> DeclaredSatisfied(r, more)
    ensures VerifiedSatisfied(producer, now, r, fewer) ==> VerifiedSatisfied(producer, now, r, more)
  {
    SatisfactionIsMonotone(r.certified, fewer, more, CountsAsCertified);
    SatisfactionIsMonotone(r.declared, fewer, more, CountsAsDeclared);
    SatisfactionIsMonotone(r.verified, fewer, more, (a: TenantAttribute) => CountsAsVerified(producer, now, a));
  }
}
