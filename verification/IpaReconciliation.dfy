/** ipa-certified-attributes-importer: the attributes of public bodies brought in line with the IPA
    registry, and the tenant service's side of it. */
module IpaReconciliation {
  import opened Wrappers
  import opened Domain
  import opened AttributeSatisfaction

  const IPA := "IPA"

  datatype ExternalId = ExternalId(origin: string, value: string)

  datatype AttributeKey = AttributeKey(origin: string, code: string)

  /** A certified attribute of the platform. */
  datatype PlatformAttribute = PlatformAttribute(id: AttributeId, key: AttributeKey)

  datatype Institution = Institution(
    id: string,
    origin: string,
    originId: string,
    category: string,
    kind: string,
    isAgency: bool)

  datatype PublicTenant = PublicTenant(externalId: ExternalId, attributes: seq<TenantAttribute>)

  datatype TenantSeed = TenantSeed(externalId: ExternalId, attributes: seq<AttributeKey>)

  datatype Assignment = Assignment(externalId: ExternalId, attributes: seq<AttributeKey>)

  datatype Revocation = Revocation(externalId: ExternalId, attribute: AttributeKey)

  /** Which kinds of institution have an attribute of their own, and the code of such an attribute. */
  datatype Config = Config(kindsToInclude: set<string>, hash: string -> string)

  /* ---- the importer ---- */

  predicate HasTenant(tenants: seq<PublicTenant>, x: ExternalId) {
    exists t :: t in tenants && t.externalId == x
  }

  function SeedOf(cfg: Config, i: Institution): TenantSeed {
    var own := [AttributeKey(i.origin, i.category)] + if i.isAgency then [AttributeKey(i.origin, i.originId)] else [];
    TenantSeed(ExternalId(i.origin, i.originId),
               (if i.kind in cfg.kindsToInclude then [AttributeKey(i.origin, cfg.hash(i.kind))] else []) + own)
  }

  /** The institutions that are tenants, and the attributes that the registry gives them. */
  function TenantSeeds(cfg: Config, institutions: seq<Institution>, tenants: seq<PublicTenant>): seq<TenantSeed> {
    if institutions == [] then []
    else
      var i := institutions[|institutions| - 1];
      TenantSeeds(cfg, institutions[..|institutions| - 1], tenants)
      + if |i.id| > 0 && HasTenant(tenants, ExternalId(i.origin, i.originId)) then [SeedOf(cfg, i)] else []
  }

  /** The attributes to create: those of the registry that a seed needs and the platform lacks. */
  function NewAttributes(registry: seq<AttributeKey>, seeds: seq<TenantSeed>,
                         attributes: seq<PlatformAttribute>): seq<AttributeKey>
  {
    if registry == [] then []
    else
      var k := registry[|registry| - 1];
      NewAttributes(registry[..|registry| - 1], seeds, attributes)
      + if (exists s :: s in seeds && k in s.attributes) && !(exists a :: a in attributes && a.key == k) then [k]
        else []
  }

  /** The tenant that an index of the tenants by external id holds: the last one, if ids are repeated. */
  function TenantOf(tenants: seq<PublicTenant>, x: ExternalId): (r: Option<PublicTenant>)
    ensures r.Some? ==> r.value.externalId == x
  {
    if tenants == [] then None
    else if tenants[|tenants| - 1].externalId == x then Some(tenants[|tenants| - 1])
    else TenantOf(tenants[..|tenants| - 1], x)
  }

  /** The registry's attributes for a tenant, if it has a seed. */
  function SeedAttributes(seeds: seq<TenantSeed>, x: ExternalId): Option<seq<AttributeKey>> {
    if seeds == [] then None
    else if seeds[|seeds| - 1].externalId == x then Some(seeds[|seeds| - 1].attributes)
    else SeedAttributes(seeds[..|seeds| - 1], x)
  }

  predicate HoldsId(attributes: seq<TenantAttribute>, id: AttributeId) {
    exists a :: a in attributes && CountsAsCertified(a) && a.id == id
  }

  /** The tenant has, unrevoked, a certified attribute of that key. */
  predicate Holds(attributes: seq<TenantAttribute>, catalog: seq<PlatformAttribute>, k: AttributeKey) {
    exists p :: p in catalog && p.key == k && HoldsId(attributes, p.id)
  }

  function Lacking(keys: seq<AttributeKey>, attributes: seq<TenantAttribute>,
                   catalog: seq<PlatformAttribute>): (r: seq<AttributeKey>)
    ensures forall k :: k in r <==> k in keys && !Holds(attributes, catalog, k)
  {
    if keys == [] then []
    else
      assert forall k :: k in keys <==> k in keys[..|keys| - 1] || k == keys[|keys| - 1];
      Lacking(keys[..|keys| - 1], attributes, catalog)
      + if Holds(attributes, catalog, keys[|keys| - 1]) then [] else [keys[|keys| - 1]]
  }

  function ToAssign(tenants: seq<PublicTenant>, catalog: seq<PlatformAttribute>,
                    seeds: seq<TenantSeed>): seq<Assignment>
  {
    if seeds == [] then []
    else
      var seed := seeds[|seeds| - 1];
      var t := TenantOf(tenants, seed.externalId);
      var lacking := if t.Some? then Lacking(seed.attributes, t.value.attributes, catalog) else [];
      ToAssign(tenants, catalog, seeds[..|seeds| - 1]) + if |lacking| > 0 then [Assignment(seed.externalId, lacking)]
        else []
  }

  predicate CanBeRevoked(seeds: seq<TenantSeed>, x: ExternalId, k: AttributeKey) {
    k.origin == IPA
    && var wanted := SeedAttributes(seeds, x);
       wanted.None? || k !in wanted.value
  }

  /** The key of an attribute id, as an index of the catalog by id holds it. */
  function KeyOf(catalog: seq<PlatformAttribute>, id: AttributeId): Option<AttributeKey> {
    if catalog == [] then None
    else if catalog[|catalog| - 1].id == id then Some(catalog[|catalog| - 1].key)
    else KeyOf(catalog[..|catalog| - 1], id)
  }

  function RevocationsOf(x: ExternalId, attributes: seq<TenantAttribute>, seeds: seq<TenantSeed>,
                         catalog: seq<PlatformAttribute>): seq<Revocation>
  {
    if attributes == [] then []
    else
      var a := attributes[|attributes| - 1];
      var k := KeyOf(catalog, a.id);
      RevocationsOf(x, attributes[..|attributes| - 1], seeds, catalog)
      + if CountsAsCertified(a) && k.Some? && CanBeRevoked(seeds, x, k.value) then [Revocation(x, k.value)] else []
  }

  function ToRevoke(seeds: seq<TenantSeed>, tenants: seq<PublicTenant>,
                    catalog: seq<PlatformAttribute>): seq<Revocation>
  {
    if tenants == [] then []
    else
      var t := tenants[|tenants| - 1];
      ToRevoke(seeds, tenants[..|tenants| - 1], catalog) + RevocationsOf(t.externalId, t.attributes, seeds, catalog)
  }

  /* ---- the tenant service ---- */

  function Unrevoked(attributes: seq<TenantAttribute>, id: AttributeId): seq<TenantAttribute> {
    seq(|attributes|, i requires 0 <= i < |attributes| =>
      if attributes[i].id == id && !attributes[i].VerifiedAttribute? then attributes[i].(revocation := None)
        else attributes[i])
  }

  function FirstCertified(attributes: seq<TenantAttribute>, id: AttributeId): (r: Option<TenantAttribute>)
    ensures r.Some? ==> r.value.CertifiedAttribute? && r.value.id == id
  {
    if attributes == [] then None
    else if attributes[0].CertifiedAttribute? && attributes[0].id == id then Some(attributes[0])
    else FirstCertified(attributes[1..], id)
  }

  /** Assigns a certified attribute for the first time or again; one that is held is an error. */
  function AssignOne(attributes: seq<TenantAttribute>, id: AttributeId): Option<seq<TenantAttribute>> {
    var found := FirstCertified(attributes, id);
    if found.None? then Some(attributes + [CertifiedAttribute(id, None)])
    else if found.value.revocation.None? then None
    else Some(Unrevoked(attributes, id))
  }

  /** The attributes of the platform that have one of the keys, each assigned in turn. */
  function AssignAll(attributes: seq<TenantAttribute>, catalog: seq<PlatformAttribute>,
                     keys: seq<AttributeKey>): Option<seq<TenantAttribute>>
  {
    if catalog == [] then Some(attributes)
    else
      var p := catalog[|catalog| - 1];
      match AssignAll(attributes, catalog[..|catalog| - 1], keys)
      case None => None
      case Some(before) => if p.key in keys then AssignOne(before, p.id) else Some(before)
  }

  function Revoked(attributes: seq<TenantAttribute>, id: AttributeId, now: int): seq<TenantAttribute> {
    seq(|attributes|, i requires 0 <= i < |attributes| =>
      if attributes[i].id == id && !attributes[i].VerifiedAttribute? then attributes[i].(revocation := Some(now))
        else attributes[i])
  }

  function IdOf(catalog: seq<PlatformAttribute>, k: AttributeKey): Option<AttributeId> {
    if catalog == [] then None else if catalog[0].key == k then Some(catalog[0].id) else IdOf(catalog[1..], k)
  }

  /* ---- attribute by attribute ---- */

  lemma {:induction false} FirstCertifiedExactly(attributes: seq<TenantAttribute>, id: AttributeId)
    ensures FirstCertified(attributes, id).Some? <==> exists a :: a in attributes && a.CertifiedAttribute? && a.id == id
    ensures FirstCertified(attributes, id).Some? ==> FirstCertified(attributes, id).value in attributes
  {
    if attributes != [] {
      FirstCertifiedExactly(attributes[1..], id);
      assert forall a :: a in attributes <==> a == attributes[0] || a in attributes[1..];
    }
  }

  /** An attribute that is not held can be assigned, and nothing else changes. */
  lemma AssignOneExactly(attributes: seq<TenantAttribute>, id: AttributeId, other: AttributeId)
    requires !HoldsId(attributes, id)
    ensures AssignOne(attributes, id).Some?
    ensures HoldsId(AssignOne(attributes, id).value, other) <==> other == id || HoldsId(attributes, other)
  {
    FirstCertifiedExactly(attributes, id);
    var found := FirstCertified(attributes, id);
    if found.None? {
      var after := attributes + [CertifiedAttribute(id, None)];
      assert after[|attributes|] in after;
      assert forall a :: a in after <==> a in attributes || a == CertifiedAttribute(id, None);
    } else {
      var after := Unrevoked(attributes, id);
      HoldsByIndex(attributes, other);
      HoldsByIndex(after, other);
      var i :| 0 <= i < |attributes| && attributes[i] == found.value;
      assert after[i] == CertifiedAttribute(id, None);
      assert forall k :: 0 <= k < |attributes| && attributes[k].id != id ==> after[k] == attributes[k];
    }
  }

  lemma HoldsByIndex(attributes: seq<TenantAttribute>, id: AttributeId)
    ensures HoldsId(attributes, id) <==>
              exists i :: 0 <= i < |attributes| && CountsAsCertified(attributes[i]) && attributes[i].id == id
  {
  }

  lemma RevokedExactly(attributes: seq<TenantAttribute>, id: AttributeId, now: int, other: AttributeId)
    ensures HoldsId(Revoked(attributes, id, now), other) <==> other != id && HoldsId(attributes, other)
  {
    HoldsByIndex(attributes, other);
    HoldsByIndex(Revoked(attributes, id, now), other);
    assert forall i :: 0 <= i < |attributes| && attributes[i].id != id ==>
             Revoked(attributes, id, now)[i] == attributes[i];
  }

  /* ---- one tenant ---- */

  /** An index of certified attributes, with one id for each key and one key for each id. */
  predicate IsCatalog(catalog: seq<PlatformAttribute>) {
    forall i, k :: 0 <= i < k < |catalog| ==> catalog[i].id != catalog[k].id && catalog[i].key != catalog[k].key
  }

  lemma {:induction false} CatalogLookups(catalog: seq<PlatformAttribute>, i: nat)
    requires IsCatalog(catalog) && i < |catalog|
    ensures KeyOf(catalog, catalog[i].id) == Some(catalog[i].key)
  {
    if i < |catalog| - 1 {
      CatalogLookups(catalog[..|catalog| - 1], i);
    }
  }

  lemma {:induction false} KeyLookup(catalog: seq<PlatformAttribute>, k: AttributeKey)
    ensures IdOf(catalog, k).Some? ==> PlatformAttribute(IdOf(catalog, k).value, k) in catalog
    ensures IdOf(catalog, k).None? ==> forall p :: p in catalog ==> p.key != k
  {
    if catalog != [] {
      KeyLookup(catalog[1..], k);
    }
  }

  lemma {:induction false} IdLookup(catalog: seq<PlatformAttribute>, id: AttributeId)
    ensures KeyOf(catalog, id).Some? ==> PlatformAttribute(id, KeyOf(catalog, id).value) in catalog
  {
    if catalog != [] {
      IdLookup(catalog[..|catalog| - 1], id);
    }
  }

  predicate AssignedId(catalog: seq<PlatformAttribute>, keys: seq<AttributeKey>, id: AttributeId) {
    exists i :: 0 <= i < |catalog| && catalog[i].key in keys && catalog[i].id == id
  }

  /** Attributes that are not held can be assigned together. */
  lemma {:induction false} AssignAllExactly(attributes: seq<TenantAttribute>, catalog: seq<PlatformAttribute>,
                                            keys: seq<AttributeKey>)
    requires IsCatalog(catalog)
    requires forall i :: 0 <= i < |catalog| && catalog[i].key in keys ==> !HoldsId(attributes, catalog[i].id)
    ensures AssignAll(attributes, catalog, keys).Some?
    ensures forall id :: HoldsId(AssignAll(attributes, catalog, keys).value, id) <==>
              HoldsId(attributes, id) || AssignedId(catalog, keys, id)
  {
    if catalog != [] {
      var before, p := catalog[..|catalog| - 1], catalog[|catalog| - 1];
      AssignAllExactly(attributes, before, keys);
      var held := AssignAll(attributes, before, keys).value;
      forall id ensures AssignedId(catalog, keys, id) <==>
          AssignedId(before, keys, id) || (p.key in keys && p.id == id) {
        assert forall i :: 0 <= i < |before| ==> before[i] == catalog[i];
        assert p.key in keys && p.id == id ==> catalog[|catalog| - 1].id == id;
        if AssignedId(before, keys, id) {
          var i :| 0 <= i < |before| && before[i].key in keys && before[i].id == id;
          assert catalog[i].key in keys && catalog[i].id == id;
        }
      }
      if p.key in keys {
        assert !AssignedId(before, keys, p.id);
        forall id
          ensures AssignOne(held, p.id).Some?
                  && (HoldsId(AssignOne(held, p.id).value, id) <==> id == p.id || HoldsId(held, id))
        {
          AssignOneExactly(held, p.id, id);
        }
      }
    }
  }

  /** The revocations for one tenant, each of an attribute that the tenant has. */
  function RevokeAll(attributes: seq<TenantAttribute>, catalog: seq<PlatformAttribute>, revocations: seq<Revocation>,
                     now: int): Option<seq<TenantAttribute>>
  {
    if revocations == [] then Some(attributes)
    else
      match RevokeAll(attributes, catalog, revocations[..|revocations| - 1], now)
      case None => None
      case Some(before) => RevokeKey(before, catalog, revocations[|revocations| - 1].attribute, now)
  }

  /** One revocation, an error if the platform or the tenant does not have the attribute. */
  function RevokeKey(attributes: seq<TenantAttribute>, catalog: seq<PlatformAttribute>, k: AttributeKey,
                     now: int): Option<seq<TenantAttribute>>
  {
    var id := IdOf(catalog, k);
    if id.None? || FirstCertified(attributes, id.value).None? then None else Some(Revoked(attributes, id.value, now))
  }

  predicate Listed(revocations: seq<Revocation>, k: AttributeKey) {
    exists r :: r in revocations && r.attribute == k
  }

  /** Whether the attribute is listed for the tenant at all, revoked or not. */
  predicate Mentions(attributes: seq<TenantAttribute>, id: AttributeId) {
    exists i :: 0 <= i < |attributes| && attributes[i].CertifiedAttribute? && attributes[i].id == id
  }

  lemma RevokeKeyExactly(attributes: seq<TenantAttribute>, catalog: seq<PlatformAttribute>, p: PlatformAttribute,
                         now: int)
    requires IsCatalog(catalog) && p in catalog && Mentions(attributes, p.id)
    ensures var after := RevokeKey(attributes, catalog, p.key, now);
            && after.Some?
            && (forall id :: HoldsId(after.value, id) <==> HoldsId(attributes, id) && id != p.id)
            && (forall id :: Mentions(after.value, id) <==> Mentions(attributes, id))
  {
    KeyLookup(catalog, p.key);
    FirstCertifiedExactly(attributes, p.id);
    var i :| 0 <= i < |attributes| && attributes[i].CertifiedAttribute? && attributes[i].id == p.id;
    assert attributes[i] in attributes;
    var after := Revoked(attributes, p.id, now);
    forall id ensures HoldsId(after, id) <==> HoldsId(attributes, id) && id != p.id {
      RevokedExactly(attributes, p.id, now, id);
    }
    forall id ensures Mentions(after, id) <==> Mentions(attributes, id) {
      assert forall k :: 0 <= k < |attributes| ==>
               (after[k].CertifiedAttribute? <==> attributes[k].CertifiedAttribute?) && after[k].id == attributes[k].id;
    }
  }

  lemma {:induction false} RevokeAllExactly(attributes: seq<TenantAttribute>, catalog: seq<PlatformAttribute>,
                                            revocations: seq<Revocation>, now: int)
    requires IsCatalog(catalog)
    requires forall r :: r in revocations ==>
               exists p :: p in catalog && p.key == r.attribute && Mentions(attributes, p.id)
    ensures var after := RevokeAll(attributes, catalog, revocations, now);
            && after.Some?
            && (forall p :: p in catalog ==>
                (HoldsId(after.value, p.id) <==> HoldsId(attributes, p.id) && !Listed(revocations, p.key)))
            && (forall id :: Mentions(after.value, id) <==> Mentions(attributes, id))
  {
    if revocations != [] {
      var before, r := revocations[..|revocations| - 1], revocations[|revocations| - 1];
      assert forall x :: x in revocations <==> x in before || x == r;
      RevokeAllExactly(attributes, catalog, before, now);
      var p :| p in catalog && p.key == r.attribute && Mentions(attributes, p.id);
      RevokeKeyExactly(RevokeAll(attributes, catalog, before, now).value, catalog, p, now);
      forall q | q in catalog ensures Listed(revocations, q.key) <==> Listed(before, q.key) || q == p {
        var i :| 0 <= i < |catalog| && catalog[i] == q;
        var k :| 0 <= k < |catalog| && catalog[k] == p;
        assert q.key == p.key <==> i == k;
      }
    }
  }

  /** A revocation is listed exactly for a key that the tenant holds and the registry does not give it. */
  lemma {:induction false} RevocationsExactly(x: ExternalId, attributes: seq<TenantAttribute>, seeds: seq<TenantSeed>,
                                              catalog: seq<PlatformAttribute>, r: Revocation)
    requires IsCatalog(catalog)
    ensures r in RevocationsOf(x, attributes, seeds, catalog)
            <==> r.externalId == x && Holds(attributes, catalog, r.attribute) && CanBeRevoked(seeds, x, r.attribute)
  {
    if attributes != [] {
      var before, a := attributes[..|attributes| - 1], attributes[|attributes| - 1];
      RevocationsExactly(x, before, seeds, catalog, r);
      assert forall b :: b in attributes <==> b in before || b == a;
      HoldsNext(before, a, catalog, r.attribute);
      assert before + [a] == attributes;
    }
  }

  lemma HoldsNext(before: seq<TenantAttribute>, a: TenantAttribute, catalog: seq<PlatformAttribute>, k: AttributeKey)
    requires IsCatalog(catalog)
    ensures Holds(before + [a], catalog, k) <==>
              Holds(before, catalog, k) || (CountsAsCertified(a) && KeyOf(catalog, a.id) == Some(k))
  {
    var after := before + [a];
    assert forall b :: b in after <==> b in before || b == a;
    IdLookup(catalog, a.id);
    if Holds(after, catalog, k) && !Holds(before, catalog, k) {
      var p :| p in catalog && p.key == k && HoldsId(after, p.id);
      assert !HoldsId(before, p.id);
      var i :| 0 <= i < |catalog| && catalog[i] == p;
      CatalogLookups(catalog, i);
    }
    if CountsAsCertified(a) && KeyOf(catalog, a.id) == Some(k) {
      assert a in after;
      assert HoldsId(after, a.id);
    }
    if Holds(before, catalog, k) {
      var p :| p in catalog && p.key == k && HoldsId(before, p.id);
      var b :| b in before && CountsAsCertified(b) && b.id == p.id;
      assert b in after;
    }
  }

  /* ---- all tenants ---- */

  type Registry = map<ExternalId, seq<TenantAttribute>>

  predicate Known(catalog: seq<PlatformAttribute>, k: AttributeKey) {
    exists p :: p in catalog && p.key == k
  }

  /** The tenant service's answer to an assignment. */
  function Upsert(m: Registry, catalog: seq<PlatformAttribute>, a: Assignment): Option<Registry> {
    if a.externalId !in m || exists k :: k in a.attributes && !Known(catalog, k) then None
    else
      match AssignAll(m[a.externalId], catalog, a.attributes)
      case None => None
      case Some(attributes) => Some(m[a.externalId := attributes])
  }

  function UpsertAll(m: Registry, catalog: seq<PlatformAttribute>, assignments: seq<Assignment>): Option<Registry> {
    if assignments == [] then Some(m)
    else
      match UpsertAll(m, catalog, assignments[..|assignments| - 1])
      case None => None
      case Some(before) => Upsert(before, catalog, assignments[|assignments| - 1])
  }

  function Revoke(m: Registry, catalog: seq<PlatformAttribute>, r: Revocation, now: int): Option<Registry> {
    if r.externalId !in m then None
    else
      match RevokeKey(m[r.externalId], catalog, r.attribute, now)
      case None => None
      case Some(attributes) => Some(m[r.externalId := attributes])
  }

  function RevokeEach(m: Registry, catalog: seq<PlatformAttribute>, revocations: seq<Revocation>,
                      now: int): Option<Registry>
  {
    if revocations == [] then Some(m)
    else
      match RevokeEach(m, catalog, revocations[..|revocations| - 1], now)
      case None => None
      case Some(before) => Revoke(before, catalog, revocations[|revocations| - 1], now)
  }

  /** The revocations of one tenant. */
  function Own(revocations: seq<Revocation>, x: ExternalId): seq<Revocation> {
    if revocations == [] then []
    else
      Own(revocations[..|revocations| - 1], x)
      + if revocations[|revocations| - 1].externalId == x then [revocations[|revocations| - 1]] else []
  }

  lemma {:induction false} OwnExactly(revocations: seq<Revocation>, x: ExternalId, e: Revocation)
    ensures e in Own(revocations, x) <==> e in revocations && e.externalId == x
  {
    if revocations != [] {
      OwnExactly(revocations[..|revocations| - 1], x, e);
    }
  }

  predicate Revocable(m: Registry, catalog: seq<PlatformAttribute>, r: Revocation) {
    r.externalId in m && exists p :: p in catalog && p.key == r.attribute && Mentions(m[r.externalId], p.id)
  }

  lemma OwnNext(attributes: seq<TenantAttribute>, catalog: seq<PlatformAttribute>, before: seq<Revocation>,
                r: Revocation, x: ExternalId, now: int)
    ensures RevokeAll(attributes, catalog, Own(before + [r], x), now)
            == if r.externalId != x then RevokeAll(attributes, catalog, Own(before, x), now)
               else match RevokeAll(attributes, catalog, Own(before, x), now)
                    case None => None
                    case Some(done) => RevokeKey(done, catalog, r.attribute, now)
  {
    assert (before + [r])[..|before|] == before;
    if r.externalId == x {
      var own := Own(before, x) + [r];
      assert own[..|own| - 1] == Own(before, x);
    } else {
      assert Own(before, x) + [] == Own(before, x);
    }
  }

  /** One revocation more, `done` being what those before it left. */
  lemma RevokeNext(m: Registry, catalog: seq<PlatformAttribute>, before: seq<Revocation>, r: Revocation, now: int,
                   done: Registry)
    requires IsCatalog(catalog) && done.Keys == m.Keys && Revocable(m, catalog, r)
    requires forall e :: e in before ==> Revocable(m, catalog, e)
    requires forall x :: x in m ==> RevokeAll(m[x], catalog, Own(before, x), now) == Lookup(done, x)
    ensures var after := Revoke(done, catalog, r, now);
            after.Some? && after.value.Keys == m.Keys
            && forall x :: x in m ==> RevokeAll(m[x], catalog, Own(before + [r], x), now) == Lookup(after.value, x)
  {
    var x := r.externalId;
    var p :| p in catalog && p.key == r.attribute && Mentions(m[x], p.id);
    forall e | e in Own(before, x) ensures exists q :: q in catalog && q.key == e.attribute && Mentions(m[x], q.id) {
      OwnExactly(before, x, e);
      assert Revocable(m, catalog, e);
    }
    RevokeAllExactly(m[x], catalog, Own(before, x), now);
    assert Mentions(done[x], p.id);
    RevokeKeyExactly(done[x], catalog, p, now);
    var after := Revoke(done, catalog, r, now).value;
    forall y | y in m ensures RevokeAll(m[y], catalog, Own(before + [r], y), now) == Lookup(after, y) {
      OwnNext(m[y], catalog, before, r, y, now);
    }
  }

  lemma RevokeEachNext(m: Registry, catalog: seq<PlatformAttribute>, before: seq<Revocation>, r: Revocation, now: int)
    ensures RevokeEach(m, catalog, before + [r], now)
            == match RevokeEach(m, catalog, before, now)
               case None => None
               case Some(done) => Revoke(done, catalog, r, now)
  {
    assert (before + [r])[..|before|] == before;
  }

  lemma {:induction false} RevokeEachAt(m: Registry, catalog: seq<PlatformAttribute>, revocations: seq<Revocation>,
                                        now: int)
    requires IsCatalog(catalog) && forall r :: r in revocations ==> Revocable(m, catalog, r)
    ensures RevokeEach(m, catalog, revocations, now).Some?
            && RevokeEach(m, catalog, revocations, now).value.Keys == m.Keys
    ensures forall x :: x in m ==>
              RevokeAll(m[x], catalog, Own(revocations, x), now)
                == Lookup(RevokeEach(m, catalog, revocations, now).value, x)
  {
    if revocations != [] {
      var before, r := revocations[..|revocations| - 1], revocations[|revocations| - 1];
      forall e | e in before ensures Revocable(m, catalog, e) {
        assert e in revocations;
      }
      assert r in revocations;
      RevokeEachAt(m, catalog, before, now);
      var done := RevokeEach(m, catalog, before, now).value;
      assert before + [r] == revocations;
      RevokeEachNext(m, catalog, before, r, now);
      RevokeNext(m, catalog, before, r, now, done);
    }
  }

  predicate Assignable(m: Registry, catalog: seq<PlatformAttribute>, a: Assignment) {
    && a.externalId in m && (forall k :: k in a.attributes ==> Known(catalog, k))
    && AssignAll(m[a.externalId], catalog, a.attributes).Some?
  }

  predicate DistinctTenants(assignments: seq<Assignment>) {
    forall i, k :: 0 <= i < k < |assignments| ==> assignments[i].externalId != assignments[k].externalId
  }

  lemma {:induction false} UpsertAllAt(m: Registry, catalog: seq<PlatformAttribute>, assignments: seq<Assignment>)
    requires DistinctTenants(assignments) && forall a :: a in assignments ==>
               a.externalId in m && Assignable(m, catalog, a)
    ensures UpsertAll(m, catalog, assignments).Some? && UpsertAll(m, catalog, assignments).value.Keys == m.Keys
    ensures forall a :: a in assignments ==>
              AssignAll(m[a.externalId], catalog, a.attributes)
                == Lookup(UpsertAll(m, catalog, assignments).value, a.externalId)
    ensures forall x :: x in m && (forall a :: a in assignments ==> a.externalId != x) ==>
              Lookup(UpsertAll(m, catalog, assignments).value, x) == Some(m[x])
  {
    if assignments != [] {
      var before, last := assignments[..|assignments| - 1], assignments[|assignments| - 1];
      assert forall a :: a in assignments <==> a in before || a == last;
      UpsertAllAt(m, catalog, before);
      assert Assignable(m, catalog, last);
      assert forall a :: a in before ==> a.externalId != last.externalId;
      assert Lookup(UpsertAll(m, catalog, before).value, last.externalId) == Some(m[last.externalId]);
    }
  }

  /* ---- the lists that the importer computes ---- */

  predicate UniqueSeeds(seeds: seq<TenantSeed>) {
    forall i, k :: 0 <= i < k < |seeds| ==> seeds[i].externalId != seeds[k].externalId
  }

  lemma {:induction false} SeedAttributesAt(seeds: seq<TenantSeed>, i: nat)
    requires UniqueSeeds(seeds) && i < |seeds|
    ensures SeedAttributes(seeds, seeds[i].externalId) == Some(seeds[i].attributes)
  {
    if i < |seeds| - 1 {
      SeedAttributesAt(seeds[..|seeds| - 1], i);
    }
  }

  lemma {:induction false} SeedAttributesFound(seeds: seq<TenantSeed>, x: ExternalId)
    ensures SeedAttributes(seeds, x).Some? ==> TenantSeed(x, SeedAttributes(seeds, x).value) in seeds
    ensures SeedAttributes(seeds, x).None? ==> forall s :: s in seeds ==> s.externalId != x
  {
    if seeds != [] {
      SeedAttributesFound(seeds[..|seeds| - 1], x);
    }
  }

  /** What is to be assigned to a tenant: its seed's attributes that it lacks, if any. */
  function AssignmentFor(tenants: seq<PublicTenant>, catalog: seq<PlatformAttribute>, seeds: seq<TenantSeed>,
                         x: ExternalId): seq<AttributeKey>
  {
    var t, wanted := TenantOf(tenants, x), SeedAttributes(seeds, x);
    if t.Some? && wanted.Some? then Lacking(wanted.value, t.value.attributes, catalog) else []
  }

  lemma {:induction false} ToAssignExactly(tenants: seq<PublicTenant>, catalog: seq<PlatformAttribute>,
                                           seeds: seq<TenantSeed>, a: Assignment)
    requires UniqueSeeds(seeds)
    ensures a in ToAssign(tenants, catalog, seeds)
            <==> a.attributes == AssignmentFor(tenants, catalog, seeds, a.externalId) && a.attributes != []
  {
    if seeds != [] {
      var before, seed := seeds[..|seeds| - 1], seeds[|seeds| - 1];
      ToAssignExactly(tenants, catalog, before, a);
      SeedAttributesFound(before, seed.externalId);
      assert SeedAttributes(before, seed.externalId).None?;
    }
  }

  lemma {:induction false} ToAssignIsDistinct(tenants: seq<PublicTenant>, catalog: seq<PlatformAttribute>,
                                              seeds: seq<TenantSeed>)
    requires UniqueSeeds(seeds)
    ensures DistinctTenants(ToAssign(tenants, catalog, seeds))
  {
    if seeds != [] {
      var before, seed := seeds[..|seeds| - 1], seeds[|seeds| - 1];
      ToAssignIsDistinct(tenants, catalog, before);
      var assignments := ToAssign(tenants, catalog, before);
      forall i | 0 <= i < |assignments| ensures assignments[i].externalId != seed.externalId {
        ToAssignExactly(tenants, catalog, before, assignments[i]);
        SeedAttributesFound(before, assignments[i].externalId);
      }
    }
  }

  lemma {:induction false} ToRevokeExactly(seeds: seq<TenantSeed>, tenants: seq<PublicTenant>,
                                           catalog: seq<PlatformAttribute>, r: Revocation)
    requires IsCatalog(catalog)
    ensures r in ToRevoke(seeds, tenants, catalog)
            <==> (exists t :: t in tenants && t.externalId == r.externalId && Holds(t.attributes, catalog, r.attribute))
                 && CanBeRevoked(seeds, r.externalId, r.attribute)
  {
    if tenants != [] {
      var before, t := tenants[..|tenants| - 1], tenants[|tenants| - 1];
      ToRevokeExactly(seeds, before, catalog, r);
      RevocationsExactly(t.externalId, t.attributes, seeds, catalog, r);
      assert forall u :: u in tenants <==> u in before || u == t;
    }
  }

  /* ---- the whole import ---- */

  function Reconciled(m: Registry, tenants: seq<PublicTenant>, before: seq<PlatformAttribute>,
                      after: seq<PlatformAttribute>, seeds: seq<TenantSeed>, now: int):
    Option<Registry>
  {
    match UpsertAll(m, after, ToAssign(tenants, before, seeds))
    case None => None
    case Some(given) => RevokeEach(given, after, ToRevoke(seeds, tenants, before), now)
  }

  /** What the importer read is what the tenant service has; it reads the attributes of its own
      origin only; external ids are unique; the attributes created meanwhile are held by nobody yet,
      and every attribute of a seed exists by then. */
  ghost predicate Consistent(m: Registry, tenants: seq<PublicTenant>, before: seq<PlatformAttribute>,
                             after: seq<PlatformAttribute>, seeds: seq<TenantSeed>)
  {
    && Reads(m, tenants, before, after)
    && UniqueSeeds(seeds)
    && (forall s :: s in seeds ==> HasTenant(tenants, s.externalId))
    && (forall s, k :: s in seeds && k in s.attributes ==> k.origin == IPA && Known(after, k))
  }

  ghost predicate Reads(m: Registry, tenants: seq<PublicTenant>, before: seq<PlatformAttribute>,
                        after: seq<PlatformAttribute>)
  {
    && IsCatalog(before) && IsCatalog(after)
    && (forall p :: p in before ==> p in after && p.key.origin == IPA)
    && (forall t :: t in tenants ==> Lookup(m, t.externalId) == Some(t.attributes))
    && (forall t, p :: t in tenants && p in after && p.key.origin == IPA && p !in before ==>
        !Mentions(t.attributes, p.id))
  }

  /** The registry gives the tenant that attribute. */
  predicate Wanted(seeds: seq<TenantSeed>, x: ExternalId, k: AttributeKey) {
    var wanted := SeedAttributes(seeds, x);
    wanted.Some? && k in wanted.value
  }

  /** What a tenant is to hold: what the registry gives it, and of other origins what it had. */
  predicate Due(t: PublicTenant, catalog: seq<PlatformAttribute>, seeds: seq<TenantSeed>, k: AttributeKey) {
    if k.origin == IPA then Wanted(seeds, t.externalId, k) else Holds(t.attributes, catalog, k)
  }

  lemma {:induction false} TenantFound(m: Registry, tenants: seq<PublicTenant>, x: ExternalId)
    requires forall t :: t in tenants ==> Lookup(m, t.externalId) == Some(t.attributes)
    ensures HasTenant(tenants, x) <==> TenantOf(tenants, x).Some?
    ensures TenantOf(tenants, x).Some? ==>
              TenantOf(tenants, x).value in tenants && Lookup(m, x) == Some(TenantOf(tenants, x).value.attributes)
  {
    if tenants != [] {
      TenantFound(m, tenants[..|tenants| - 1], x);
      assert forall t :: t in tenants <==> t in tenants[..|tenants| - 1] || t == tenants[|tenants| - 1];
      if HasTenant(tenants, x) && tenants[|tenants| - 1].externalId != x {
        var t :| t in tenants && t.externalId == x;
        assert t in tenants[..|tenants| - 1];
      }
    }
  }

  lemma HoldsImpliesMentions(attributes: seq<TenantAttribute>, id: AttributeId)
    requires HoldsId(attributes, id)
    ensures Mentions(attributes, id)
  {
    HoldsByIndex(attributes, id);
  }

  /** The new attributes make no difference to what a tenant holds. */
  lemma HoldsInBoth(m: Registry, tenants: seq<PublicTenant>, before: seq<PlatformAttribute>,
                    after: seq<PlatformAttribute>, seeds: seq<TenantSeed>, t: PublicTenant, k: AttributeKey)
    requires Consistent(m, tenants, before, after, seeds) && t in tenants
    ensures Holds(t.attributes, before, k) <==> k.origin == IPA && Holds(t.attributes, after, k)
  {
    if k.origin == IPA && Holds(t.attributes, after, k) {
      var p :| p in after && p.key == k && HoldsId(t.attributes, p.id);
      HoldsImpliesMentions(t.attributes, p.id);
      assert p in before;
    }
  }

  /** The attributes of one tenant after the assignments. */
  lemma AssignedTenant(m: Registry, tenants: seq<PublicTenant>, before: seq<PlatformAttribute>,
                       after: seq<PlatformAttribute>, seeds: seq<TenantSeed>, t: PublicTenant)
    requires Consistent(m, tenants, before, after, seeds) && t in tenants
    ensures var keys := AssignmentFor(tenants, before, seeds, t.externalId);
            && AssignAll(t.attributes, after, keys).Some?
            && (forall k :: k in keys ==> Known(after, k))
            && (forall k :: Holds(AssignAll(t.attributes, after, keys).value, after, k) <==>
                Holds(t.attributes, after, k) || k in keys)
            && (forall id :: HoldsId(t.attributes, id) ==> HoldsId(AssignAll(t.attributes, after, keys).value, id))
  {
    var x, keys := t.externalId, AssignmentFor(tenants, before, seeds, t.externalId);
    TenantFound(m, tenants, x);
    SeedAttributesFound(seeds, x);
    forall i | 0 <= i < |after| && after[i].key in keys ensures !HoldsId(t.attributes, after[i].id) {
      HoldsInBoth(m, tenants, before, after, seeds, t, after[i].key);
      assert after[i] in after;
    }
    AssignAllExactly(t.attributes, after, keys);
    var given := AssignAll(t.attributes, after, keys).value;
    forall k ensures Holds(given, after, k) <==> Holds(t.attributes, after, k) || k in keys {
      AssignedHolds(t.attributes, given, after, keys, k);
    }
  }

  lemma AssignedHolds(attributes: seq<TenantAttribute>, given: seq<TenantAttribute>, catalog: seq<PlatformAttribute>,
                      keys: seq<AttributeKey>, k: AttributeKey)
    requires IsCatalog(catalog) && (k in keys ==> Known(catalog, k))
    requires forall id :: HoldsId(given, id) <==> HoldsId(attributes, id) || AssignedId(catalog, keys, id)
    ensures Holds(given, catalog, k) <==> Holds(attributes, catalog, k) || k in keys
  {
    forall p | p in catalog && p.key == k ensures AssignedId(catalog, keys, p.id) <==> k in keys {
      AssignedIdIsKey(catalog, keys, p);
    }
    if k in keys {
      var p :| p in catalog && p.key == k;
      assert HoldsId(given, p.id);
    }
  }

  lemma AssignedIdIsKey(catalog: seq<PlatformAttribute>, keys: seq<AttributeKey>, p: PlatformAttribute)
    requires IsCatalog(catalog) && p in catalog
    ensures AssignedId(catalog, keys, p.id) <==> p.key in keys
  {
    var j :| 0 <= j < |catalog| && catalog[j] == p;
    assert forall i :: 0 <= i < |catalog| && catalog[i].id == p.id ==> i == j;
  }

  lemma OneAssignable(m: Registry, tenants: seq<PublicTenant>, before: seq<PlatformAttribute>,
                      after: seq<PlatformAttribute>, seeds: seq<TenantSeed>, a: Assignment)
    requires Consistent(m, tenants, before, after, seeds) && a in ToAssign(tenants, before, seeds)
    ensures a.externalId in m && Assignable(m, after, a) && HasTenant(tenants, a.externalId)
  {
    ToAssignExactly(tenants, before, seeds, a);
    TenantFound(m, tenants, a.externalId);
    AssignedTenant(m, tenants, before, after, seeds, TenantOf(tenants, a.externalId).value);
  }

  /** What the assignments leave of one tenant. */
  lemma GivenTo(m: Registry, tenants: seq<PublicTenant>, before: seq<PlatformAttribute>, after: seq<PlatformAttribute>,
                seeds: seq<TenantSeed>, given: Registry, t: PublicTenant)
    requires Consistent(m, tenants, before, after, seeds) && t in tenants
    requires forall a :: a in ToAssign(tenants, before, seeds) ==>
               a.externalId in m && AssignAll(m[a.externalId], after, a.attributes) == Lookup(given, a.externalId)
    requires (forall a :: a in ToAssign(tenants, before, seeds) ==> a.externalId != t.externalId) ==>
               Lookup(given, t.externalId) == Lookup(m, t.externalId)
    ensures AssignAll(t.attributes, after, AssignmentFor(tenants, before, seeds, t.externalId))
            == Lookup(given, t.externalId)
  {
    var x, keys := t.externalId, AssignmentFor(tenants, before, seeds, t.externalId);
    if keys == [] {
      AssignNothing(t.attributes, after);
      forall a | a in ToAssign(tenants, before, seeds) ensures a.externalId != x {
        ToAssignExactly(tenants, before, seeds, a);
      }
    } else {
      ToAssignExactly(tenants, before, seeds, Assignment(x, keys));
    }
  }

  /** All assignments go through, and each tenant has what is assigned to it. */
  lemma AssignmentsGoThrough(m: Registry, tenants: seq<PublicTenant>, before: seq<PlatformAttribute>,
                             after: seq<PlatformAttribute>, seeds: seq<TenantSeed>)
    requires Consistent(m, tenants, before, after, seeds)
    ensures var given := UpsertAll(m, after, ToAssign(tenants, before, seeds));
            && given.Some? && given.value.Keys == m.Keys
            && (forall t :: t in tenants ==>
                  AssignAll(t.attributes, after, AssignmentFor(tenants, before, seeds, t.externalId))
                    == Lookup(given.value, t.externalId))
            && (forall x :: x in m && !HasTenant(tenants, x) ==> Lookup(given.value, x) == Some(m[x]))
  {
    var assignments := ToAssign(tenants, before, seeds);
    ToAssignIsDistinct(tenants, before, seeds);
    forall a | a in assignments
      ensures a.externalId in m && Assignable(m, after, a) && HasTenant(tenants, a.externalId) {
      OneAssignable(m, tenants, before, after, seeds, a);
    }
    UpsertAllAt(m, after, assignments);
    var given := UpsertAll(m, after, assignments).value;
    forall t | t in tenants
      ensures AssignAll(t.attributes, after, AssignmentFor(tenants, before, seeds, t.externalId))
              == Lookup(given, t.externalId)
    {
      GivenTo(m, tenants, before, after, seeds, given, t);
    }
  }

  lemma {:induction false} AssignNothing(attributes: seq<TenantAttribute>, catalog: seq<PlatformAttribute>)
    ensures AssignAll(attributes, catalog, []) == Some(attributes)
  {
    if catalog != [] {
      AssignNothing(attributes, catalog[..|catalog| - 1]);
    }
  }

  /** All revocations go through. */
  lemma RevocationsGoThrough(m: Registry, tenants: seq<PublicTenant>, before: seq<PlatformAttribute>,
                             after: seq<PlatformAttribute>, seeds: seq<TenantSeed>,
                             given: Registry, now: int)
    requires Consistent(m, tenants, before, after, seeds) && given.Keys == m.Keys
    requires forall t :: t in tenants ==>
               AssignAll(t.attributes, after, AssignmentFor(tenants, before, seeds, t.externalId))
                 == Lookup(given, t.externalId)
    ensures var revocations := ToRevoke(seeds, tenants, before); var done := RevokeEach(given, after, revocations, now);
            && done.Some? && done.value.Keys == m.Keys
            && (forall x :: x in m ==> RevokeAll(given[x], after, Own(revocations, x), now) == Lookup(done.value, x))
  {
    var revocations := ToRevoke(seeds, tenants, before);
    forall r | r in revocations ensures Revocable(given, after, r) {
      ToRevokeExactly(seeds, tenants, before, r);
      var t :| t in tenants && t.externalId == r.externalId && Holds(t.attributes, before, r.attribute);
      var p :| p in before && p.key == r.attribute && HoldsId(t.attributes, p.id);
      AssignedTenant(m, tenants, before, after, seeds, t);
      HoldsImpliesMentions(given[r.externalId], p.id);
      assert p in after;
    }
    RevokeEachAt(given, after, revocations, now);
  }

  /** One tenant, once the revocations are done. */
  lemma RevokedTenant(m: Registry, tenants: seq<PublicTenant>, before: seq<PlatformAttribute>,
                      after: seq<PlatformAttribute>, seeds: seq<TenantSeed>,
                      given: Registry, now: int, t: PublicTenant, k: AttributeKey)
    requires Consistent(m, tenants, before, after, seeds) && given.Keys == m.Keys && t in tenants
    requires AssignAll(t.attributes, after, AssignmentFor(tenants, before, seeds, t.externalId))
             == Lookup(given, t.externalId)
    requires forall r :: r in ToRevoke(seeds, tenants, before) ==> Revocable(given, after, r)
    ensures var done := RevokeAll(given[t.externalId], after, Own(ToRevoke(seeds, tenants, before), t.externalId), now);
            done.Some? && (Holds(done.value, after, k) <==> Due(t, after, seeds, k))
  {
    var x, revocations := t.externalId, ToRevoke(seeds, tenants, before);
    AssignedTenant(m, tenants, before, after, seeds, t);
    forall e | e in Own(revocations, x)
      ensures exists p :: p in after && p.key == e.attribute && Mentions(given[x], p.id) {
      OwnExactly(revocations, x, e);
      assert Revocable(given, after, e);
    }
    RevokeAllExactly(given[x], after, Own(revocations, x), now);
    HoldsInBoth(m, tenants, before, after, seeds, t, k);
    OwnExactly(revocations, x, Revocation(x, k));
    ToRevokeExactly(seeds, tenants, before, Revocation(x, k));
    TenantFound(m, tenants, x);
    SeedAttributesFound(seeds, x);
    OwnListing(revocations, x, k);
  }

  lemma OwnListing(revocations: seq<Revocation>, x: ExternalId, k: AttributeKey)
    ensures Listed(Own(revocations, x), k) <==> Revocation(x, k) in revocations
  {
    OwnExactly(revocations, x, Revocation(x, k));
    if Listed(Own(revocations, x), k) {
      var r :| r in Own(revocations, x) && r.attribute == k;
      OwnExactly(revocations, x, r);
      assert r == Revocation(x, k);
    }
  }

  /** Reconciliation.  Every call to the tenant service succeeds; of the attributes of this origin each
      public tenant ends with exactly those that the registry gives it, all else is left alone. */
  lemma ReconciliationMatchesRegistry(m: Registry, tenants: seq<PublicTenant>, before: seq<PlatformAttribute>,
                                      after: seq<PlatformAttribute>,
                                      seeds: seq<TenantSeed>, now: int)
    requires Consistent(m, tenants, before, after, seeds)
    ensures var done := Reconciled(m, tenants, before, after, seeds, now);
            && done.Some? && done.value.Keys == m.Keys
            && (forall t, k :: t in tenants ==>
                (Holds(done.value[t.externalId], after, k) <==> Due(t, after, seeds, k)))
            && (forall x :: x in m && !HasTenant(tenants, x) ==> Lookup(done.value, x) == Some(m[x]))
  {
    AssignmentsGoThrough(m, tenants, before, after, seeds);
    var given, revocations := UpsertAll(m, after, ToAssign(tenants, before, seeds)).value,
      ToRevoke(seeds, tenants, before);
    RevocationsGoThrough(m, tenants, before, after, seeds, given, now);
    var done := RevokeEach(given, after, revocations, now).value;
    forall t, k | t in tenants ensures Holds(done[t.externalId], after, k) <==> Due(t, after, seeds, k) {
      RevocableAll(m, tenants, before, after, seeds, given);
      RevokedTenant(m, tenants, before, after, seeds, given, now, t, k);
    }
    forall x | x in m && !HasTenant(tenants, x) ensures Lookup(done, x) == Some(m[x]) {
      OwnOfOthers(seeds, tenants, before, x);
    }
  }

  lemma RevocableAll(m: Registry, tenants: seq<PublicTenant>, before: seq<PlatformAttribute>,
                     after: seq<PlatformAttribute>, seeds: seq<TenantSeed>, given: Registry)
    requires Consistent(m, tenants, before, after, seeds) && given.Keys == m.Keys
    requires forall t :: t in tenants ==>
               AssignAll(t.attributes, after, AssignmentFor(tenants, before, seeds, t.externalId))
                 == Lookup(given, t.externalId)
    ensures forall r :: r in ToRevoke(seeds, tenants, before) ==> Revocable(given, after, r)
  {
    forall r | r in ToRevoke(seeds, tenants, before) ensures Revocable(given, after, r) {
      ToRevokeExactly(seeds, tenants, before, r);
      var t :| t in tenants && t.externalId == r.externalId && Holds(t.attributes, before, r.attribute);
      var p :| p in before && p.key == r.attribute && HoldsId(t.attributes, p.id);
      AssignedTenant(m, tenants, before, after, seeds, t);
      HoldsImpliesMentions(given[r.externalId], p.id);
      assert p in after;
    }
  }

  lemma OwnOfOthers(seeds: seq<TenantSeed>, tenants: seq<PublicTenant>, catalog: seq<PlatformAttribute>, x: ExternalId)
    requires IsCatalog(catalog) && !HasTenant(tenants, x)
    ensures Own(ToRevoke(seeds, tenants, catalog), x) == []
  {
    var own := Own(ToRevoke(seeds, tenants, catalog), x);
    if own != [] {
      OwnExactly(ToRevoke(seeds, tenants, catalog), x, own[0]);
      ToRevokeExactly(seeds, tenants, catalog, own[0]);
    }
  }

  /** What is assigned and what is revoked are different things. */
  lemma AssignAndRevokeAreDisjoint(tenants: seq<PublicTenant>, m: Registry, catalog: seq<PlatformAttribute>,
                                   seeds: seq<TenantSeed>, a: Assignment, r: Revocation)
    requires IsCatalog(catalog) && UniqueSeeds(seeds) && forall t :: t in tenants ==>
               Lookup(m, t.externalId) == Some(t.attributes)
    requires a in ToAssign(tenants, catalog, seeds) && r in ToRevoke(seeds, tenants, catalog)
             && a.externalId == r.externalId
    ensures r.attribute !in a.attributes
  {
    ToAssignExactly(tenants, catalog, seeds, a);
    ToRevokeExactly(seeds, tenants, catalog, r);
    TenantFound(m, tenants, a.externalId);
  }

  /** A tenant that has what the registry gives it needs nothing. */
  lemma NothingToDo(m: Registry, tenants: seq<PublicTenant>, catalog: seq<PlatformAttribute>, seeds: seq<TenantSeed>)
    requires IsCatalog(catalog) && UniqueSeeds(seeds) && forall t :: t in tenants ==>
               Lookup(m, t.externalId) == Some(t.attributes)
    requires forall t, k :: t in tenants ==> (Holds(t.attributes, catalog, k) <==> Wanted(seeds, t.externalId, k))
    ensures ToAssign(tenants, catalog, seeds) == [] && ToRevoke(seeds, tenants, catalog) == []
  {
    forall a: Assignment ensures a !in ToAssign(tenants, catalog, seeds) {
      ToAssignExactly(tenants, catalog, seeds, a);
      TenantFound(m, tenants, a.externalId);
      NothingFor(tenants, catalog, seeds, a.externalId);
    }
    forall r: Revocation ensures r !in ToRevoke(seeds, tenants, catalog) {
      ToRevokeExactly(seeds, tenants, catalog, r);
    }
    EmptyOrNot(ToAssign(tenants, catalog, seeds));
    EmptyOrNot(ToRevoke(seeds, tenants, catalog));
  }

  lemma NothingFor(tenants: seq<PublicTenant>, catalog: seq<PlatformAttribute>, seeds: seq<TenantSeed>, x: ExternalId)
    requires TenantOf(tenants, x).Some? ==> TenantOf(tenants, x).value in tenants
    requires forall t, k :: t in tenants && Wanted(seeds, t.externalId, k) ==> Holds(t.attributes, catalog, k)
    ensures AssignmentFor(tenants, catalog, seeds, x) == []
  {
    forall k ensures k !in AssignmentFor(tenants, catalog, seeds, x) {
      assert TenantOf(tenants, x).Some? && Wanted(seeds, x, k) ==>
               Holds(TenantOf(tenants, x).value.attributes, catalog, k);
    }
    EmptyOrNot(AssignmentFor(tenants, catalog, seeds, x));
  }

  lemma EmptyOrNot<T>(s: seq<T>)
    ensures s == [] || exists x :: x in s
  {
    if s != [] {
      assert s[0] in s;
    }
  }

  /* ---- seeds ---- */

  predicate UniqueInstitutions(institutions: seq<Institution>) {
    forall i, k :: 0 <= i < k < |institutions| ==>
      institutions[i].origin != institutions[k].origin || institutions[i].originId != institutions[k].originId
  }

  lemma {:induction false} SeedsAreUnique(cfg: Config, institutions: seq<Institution>, tenants: seq<PublicTenant>)
    requires UniqueInstitutions(institutions)
    ensures UniqueSeeds(TenantSeeds(cfg, institutions, tenants))
    ensures forall s :: s in TenantSeeds(cfg, institutions, tenants) ==>
              HasTenant(tenants, s.externalId)
              && exists i :: 0 <= i < |institutions| && |institutions[i].id| > 0 && s == SeedOf(cfg, institutions[i])
    ensures forall i :: 0 <= i < |institutions| && |institutions[i].id| > 0
                        && HasTenant(tenants, ExternalId(institutions[i].origin, institutions[i].originId)) ==>
              SeedOf(cfg, institutions[i]) in TenantSeeds(cfg, institutions, tenants)
  {
    if institutions != [] {
      var before, n := institutions[..|institutions| - 1], |institutions| - 1;
      SeedsAreUnique(cfg, before, tenants);
      assert forall i :: 0 <= i < n ==> before[i] == institutions[i];
    }
  }

  /** Seeds depend on which tenants there are, not on what they hold. */
  lemma {:induction false} SeedsStay(cfg: Config, institutions: seq<Institution>, tenants: seq<PublicTenant>,
                                     later: seq<PublicTenant>)
    requires forall x :: HasTenant(tenants, x) <==> HasTenant(later, x)
    ensures TenantSeeds(cfg, institutions, later) == TenantSeeds(cfg, institutions, tenants)
  {
    if institutions != [] {
      SeedsStay(cfg, institutions[..|institutions| - 1], tenants, later);
    }
  }

  lemma {:induction false} NewAttributesExactly(registry: seq<AttributeKey>, seeds: seq<TenantSeed>,
                                                attributes: seq<PlatformAttribute>, k: AttributeKey)
    ensures k in NewAttributes(registry, seeds, attributes)
            <==> k in registry && (exists s :: s in seeds && k in s.attributes) && !Known(attributes, k)
  {
    if registry != [] {
      NewAttributesExactly(registry[..|registry| - 1], seeds, attributes, k);
      assert forall x :: x in registry <==> x in registry[..|registry| - 1] || x == registry[|registry| - 1];
    }
  }

  /** The registry is one listing per institution, all of this origin; it lists the attributes that the
      institutions need unless the platform has them; the missing ones are created before any is assigned. */
  ghost predicate Published(cfg: Config, institutions: seq<Institution>, registry: seq<AttributeKey>,
                            tenants: seq<PublicTenant>,
                            before: seq<PlatformAttribute>, after: seq<PlatformAttribute>) {
    && UniqueInstitutions(institutions)
    && (forall i :: 0 <= i < |institutions| ==> institutions[i].origin == IPA)
    && var seeds := TenantSeeds(cfg, institutions, tenants);
    && (forall s, k :: s in seeds && k in s.attributes ==> k in registry || Known(before, k))
    && (forall k :: k in NewAttributes(registry, seeds, before) ==> Known(after, k))
  }

  lemma SeedIsKnown(cfg: Config, i: Institution, registry: seq<AttributeKey>, seeds: seq<TenantSeed>,
                    before: seq<PlatformAttribute>, after: seq<PlatformAttribute>)
    requires i.origin == IPA && SeedOf(cfg, i) in seeds && forall p :: p in before ==> p in after
    requires forall k :: k in SeedOf(cfg, i).attributes ==> k in registry || Known(before, k)
    requires forall k :: k in NewAttributes(registry, seeds, before) ==> Known(after, k)
    ensures forall k :: k in SeedOf(cfg, i).attributes ==> k.origin == IPA && Known(after, k)
  {
    forall k | k in SeedOf(cfg, i).attributes ensures k.origin == IPA && Known(after, k) {
      NewAttributesExactly(registry, seeds, before, k);
    }
  }

  lemma PublishedIsConsistent(cfg: Config, institutions: seq<Institution>, registry: seq<AttributeKey>, m: Registry,
                              tenants: seq<PublicTenant>,
                              before: seq<PlatformAttribute>, after: seq<PlatformAttribute>)
    requires Reads(m, tenants, before, after) && Published(cfg, institutions, registry, tenants, before, after)
    ensures Consistent(m, tenants, before, after, TenantSeeds(cfg, institutions, tenants))
  {
    var seeds := TenantSeeds(cfg, institutions, tenants);
    SeedsAreUnique(cfg, institutions, tenants);
    forall s | s in seeds ensures forall k :: k in s.attributes ==> k.origin == IPA && Known(after, k) {
      var i :| 0 <= i < |institutions| && |institutions[i].id| > 0 && s == SeedOf(cfg, institutions[i]);
      SeedIsKnown(cfg, institutions[i], registry, seeds, before, after);
    }
  }

  /** The attributes that the registry gives an institution: that of its category, its own one if it is
      an agency, and that of its kind if kinds of that sort count. */
  predicate Gives(cfg: Config, i: Institution, k: AttributeKey) {
    k.origin == i.origin
    && (k.code == i.category
        || (i.isAgency && k.code == i.originId)
        || (i.kind in cfg.kindsToInclude && k.code == cfg.hash(i.kind)))
  }

  /** The registry lists the attribute for the institution with that external id. */
  predicate Lists(cfg: Config, institutions: seq<Institution>, x: ExternalId, k: AttributeKey) {
    exists i :: 0 <= i < |institutions| && |institutions[i].id| > 0
                && ExternalId(institutions[i].origin, institutions[i].originId) == x && Gives(cfg, institutions[i], k)
  }

  lemma SeedGives(cfg: Config, i: Institution, k: AttributeKey)
    ensures k in SeedOf(cfg, i).attributes <==> Gives(cfg, i, k)
  {
    assert k == AttributeKey(k.origin, k.code);
  }

  lemma WantedIsListed(cfg: Config, institutions: seq<Institution>, tenants: seq<PublicTenant>, x: ExternalId,
                       k: AttributeKey)
    requires UniqueInstitutions(institutions) && HasTenant(tenants, x)
    ensures Wanted(TenantSeeds(cfg, institutions, tenants), x, k) <==> Lists(cfg, institutions, x, k)
  {
    var seeds := TenantSeeds(cfg, institutions, tenants);
    SeedsAreUnique(cfg, institutions, tenants);
    SeedAttributesFound(seeds, x);
    forall i | 0 <= i < |institutions|
      ensures k in SeedOf(cfg, institutions[i]).attributes <==> Gives(cfg, institutions[i], k)
    {
      SeedGives(cfg, institutions[i], k);
    }
    if Lists(cfg, institutions, x, k) {
      var i :| 0 <= i < |institutions| && |institutions[i].id| > 0
        && ExternalId(institutions[i].origin, institutions[i].originId) == x && Gives(cfg, institutions[i], k);
      var n :| 0 <= n < |seeds| && seeds[n] == SeedOf(cfg, institutions[i]);
      SeedAttributesAt(seeds, n);
    }
  }

  /** The import against the registry itself, with the attributes that it creates on the way. */
  lemma ImportMatchesRegistry(cfg: Config, institutions: seq<Institution>, registry: seq<AttributeKey>, m: Registry,
                              tenants: seq<PublicTenant>,
                              before: seq<PlatformAttribute>, after: seq<PlatformAttribute>, now: int)
    requires Reads(m, tenants, before, after) && Published(cfg, institutions, registry, tenants, before, after)
    ensures var done := Reconciled(m, tenants, before, after, TenantSeeds(cfg, institutions, tenants), now);
            && done.Some? && done.value.Keys == m.Keys
            && (forall t, k: AttributeKey :: t in tenants && k.origin == IPA ==>
                  (Holds(done.value[t.externalId], after, k) <==> Lists(cfg, institutions, t.externalId, k)))
            && (forall t, k: AttributeKey :: t in tenants && k.origin != IPA ==>
                  (Holds(done.value[t.externalId], after, k) <==> Holds(t.attributes, after, k)))
            && (forall x :: x in m && !HasTenant(tenants, x) ==> Lookup(done.value, x) == Some(m[x]))
  {
    var seeds := TenantSeeds(cfg, institutions, tenants);
    PublishedIsConsistent(cfg, institutions, registry, m, tenants, before, after);
    ReconciliationMatchesRegistry(m, tenants, before, after, seeds, now);
    forall t, k | t in tenants ensures Wanted(seeds, t.externalId, k) <==> Lists(cfg, institutions, t.externalId, k) {
      WantedIsListed(cfg, institutions, tenants, t.externalId, k);
    }
  }

  lemma HoldsListed(attributes: seq<TenantAttribute>, catalog: seq<PlatformAttribute>, listed: seq<PlatformAttribute>,
                    k: AttributeKey)
    requires forall p :: p in listed <==> p in catalog && p.key.origin == IPA
    ensures Holds(attributes, listed, k) <==> k.origin == IPA && Holds(attributes, catalog, k)
  {
  }

  lemma SecondReading(u: PublicTenant, t: PublicTenant, catalog: seq<PlatformAttribute>, listed: seq<PlatformAttribute>,
                      seeds: seq<TenantSeed>)
    requires u.externalId == t.externalId && forall k :: Holds(t.attributes, catalog, k) <==> Due(u, catalog, seeds, k)
    requires forall p :: p in listed <==> p in catalog && p.key.origin == IPA
    requires forall s, k :: s in seeds && k in s.attributes ==> k.origin == IPA
    ensures forall k :: Holds(t.attributes, listed, k) <==> Wanted(seeds, t.externalId, k)
  {
    forall k ensures Holds(t.attributes, listed, k) <==> Wanted(seeds, t.externalId, k) {
      HoldsListed(t.attributes, catalog, listed, k);
      SeedAttributesFound(seeds, t.externalId);
    }
  }

  /** What the second run reads: the same tenants, as the first run left them, and the attributes of
      this origin. */
  ghost predicate ReadsAgain(done: Registry, tenants: seq<PublicTenant>, later: seq<PublicTenant>,
                             catalog: seq<PlatformAttribute>, listed: seq<PlatformAttribute>)
  {
    && (forall x :: HasTenant(tenants, x) <==> HasTenant(later, x))
    && (forall t :: t in later ==> Lookup(done, t.externalId) == Some(t.attributes))
    && IsCatalog(listed) && (forall p :: p in listed <==> p in catalog && p.key.origin == IPA)
  }

  lemma NothingLeft(done: Registry, tenants: seq<PublicTenant>, later: seq<PublicTenant>,
                    catalog: seq<PlatformAttribute>, listed: seq<PlatformAttribute>,
                    seeds: seq<TenantSeed>)
    requires ReadsAgain(done, tenants, later, catalog, listed) && UniqueSeeds(seeds)
    requires forall t :: t in tenants ==> t.externalId in done && forall k :: Holds(done[t.externalId], catalog, k) <==>
               Due(t, catalog, seeds, k)
    requires forall s, k :: s in seeds && k in s.attributes ==> k.origin == IPA
    ensures ToAssign(later, listed, seeds) == [] && ToRevoke(seeds, later, listed) == []
  {
    forall t | t in later ensures forall k :: Holds(t.attributes, listed, k) <==> Wanted(seeds, t.externalId, k) {
      assert HasTenant(later, t.externalId) && Lookup(done, t.externalId) == Some(t.attributes);
      var u :| u in tenants && u.externalId == t.externalId;
      SecondReading(u, t, catalog, listed, seeds);
    }
    NothingToDo(done, later, listed, seeds);
  }

  lemma ReconciledAsDue(m: Registry, tenants: seq<PublicTenant>, before: seq<PlatformAttribute>,
                        after: seq<PlatformAttribute>, seeds: seq<TenantSeed>, now: int, done: Registry)
    requires Consistent(m, tenants, before, after, seeds)
    requires Reconciled(m, tenants, before, after, seeds, now) == Some(done)
    ensures forall t :: t in tenants ==> t.externalId in done && forall k :: Holds(done[t.externalId], after, k) <==>
              Due(t, after, seeds, k)
  {
    ReconciliationMatchesRegistry(m, tenants, before, after, seeds, now);
    assert forall t :: t in tenants ==> Lookup(m, t.externalId) == Some(t.attributes);
  }

  lemma RunAgain(m: Registry, tenants: seq<PublicTenant>, before: seq<PlatformAttribute>,
                 after: seq<PlatformAttribute>, seeds: seq<TenantSeed>, now: int, done: Registry,
                 later: seq<PublicTenant>, listed: seq<PlatformAttribute>)
    requires Consistent(m, tenants, before, after, seeds)
    requires Reconciled(m, tenants, before, after, seeds, now) == Some(done)
    requires ReadsAgain(done, tenants, later, after, listed)
    ensures ToAssign(later, listed, seeds) == [] && ToRevoke(seeds, later, listed) == []
  {
    ReconciledAsDue(m, tenants, before, after, seeds, now, done);
    NothingLeft(done, tenants, later, after, listed, seeds);
  }

  /** The second run: with the tenants as the first one left them, both lists are empty. */
  lemma SecondRunIsEmpty(cfg: Config, institutions: seq<Institution>, m: Registry, tenants: seq<PublicTenant>,
                         before: seq<PlatformAttribute>,
                         after: seq<PlatformAttribute>, now: int, later: seq<PublicTenant>,
                         listed: seq<PlatformAttribute>)
    requires Consistent(m, tenants, before, after, TenantSeeds(cfg, institutions, tenants))
    requires var done := Reconciled(m, tenants, before, after, TenantSeeds(cfg, institutions, tenants), now);
             done.Some? && ReadsAgain(done.value, tenants, later, after, listed)
    ensures var seeds := TenantSeeds(cfg, institutions, later);
            ToAssign(later, listed, seeds) == [] && ToRevoke(seeds, later, listed) == []
  {
    var seeds := TenantSeeds(cfg, institutions, tenants);
    SeedsStay(cfg, institutions, tenants, later);
    var done := Reconciled(m, tenants, before, after, seeds, now).value;
    RunAgain(m, tenants, before, after, seeds, now, done, later, listed);
  }

  /* ---- the tenant service's answers, told from the attributes ---- */

  /** The first certified attribute with that id is at `i`. */
  predicate FirstAt(attributes: seq<TenantAttribute>, id: AttributeId, i: nat) {
    i < |attributes| && attributes[i].CertifiedAttribute? && attributes[i].id == id
    && forall k :: 0 <= k < i && attributes[k].CertifiedAttribute? ==> attributes[k].id != id
  }

  lemma {:induction false} FirstCertifiedIsFirst(attributes: seq<TenantAttribute>, id: AttributeId, i: nat)
    requires FirstAt(attributes, id, i)
    ensures FirstCertified(attributes, id) == Some(attributes[i])
  {
    if i > 0 {
      assert forall k :: 0 <= k < |attributes| - 1 ==> attributes[1..][k] == attributes[k + 1];
      FirstCertifiedIsFirst(attributes[1..], id, i - 1);
    }
  }

  /** The attributes with that id, but for verified ones, get the revocation date, and all others stay. */
  predicate Redated(attributes: seq<TenantAttribute>, after: seq<TenantAttribute>, id: AttributeId, date: Option<int>) {
    && |after| == |attributes|
    && forall k :: 0 <= k < |attributes| ==>
         after[k] == match attributes[k]
                     case CertifiedAttribute(x, d) => CertifiedAttribute(x, if x == id then date else d)
                     case DeclaredAttribute(x, d) => DeclaredAttribute(x, if x == id then date else d)
                     case VerifiedAttribute(_, _, _) => attributes[k]
  }

  /** An attribute that the tenant never had is added at the end; one that it holds is refused; one that
      was revoked loses its revocation. */
  lemma AssignmentAnswer(attributes: seq<TenantAttribute>, id: AttributeId, i: nat)
    ensures !Mentions(attributes, id) ==> AssignOne(attributes, id) == Some(attributes + [CertifiedAttribute(id, None)])
    ensures FirstAt(attributes, id, i) ==>
              if attributes[i].revocation.None? then AssignOne(attributes, id) == None
              else AssignOne(attributes, id).Some? && Redated(attributes, AssignOne(attributes, id).value, id, None)
  {
    FirstCertifiedExactly(attributes, id);
    if FirstAt(attributes, id, i) {
      FirstCertifiedIsFirst(attributes, id, i);
    }
  }

  /** A revocation dates the attribute of that key, and is refused if the tenant never had it or the
      platform does not know it. */
  lemma RevocationAnswer(attributes: seq<TenantAttribute>, catalog: seq<PlatformAttribute>, k: AttributeKey, now: int,
                         i: nat)
    requires i < |catalog| && catalog[i].key == k && forall n :: 0 <= n < i ==> catalog[n].key != k
    ensures var after := RevokeKey(attributes, catalog, k, now);
            if !Mentions(attributes, catalog[i].id) then after == None
            else after.Some? && Redated(attributes, after.value, catalog[i].id, Some(now))
  {
    IdOfFirst(catalog, k, i);
    FirstCertifiedExactly(attributes, catalog[i].id);
    assert forall n :: 0 <= n < |attributes| ==> attributes[n] in attributes;
  }

  lemma {:induction false} IdOfFirst(catalog: seq<PlatformAttribute>, k: AttributeKey, i: nat)
    requires i < |catalog| && catalog[i].key == k && forall n :: 0 <= n < i ==> catalog[n].key != k
    ensures IdOf(catalog, k) == Some(catalog[i].id)
  {
    if i > 0 {
      assert forall n :: 0 <= n < |catalog| - 1 ==> catalog[1..][n] == catalog[n + 1];
      IdOfFirst(catalog[1..], k, i - 1);
    }
  }

  /** The first certified attribute with that id is unrevoked, so that it cannot be assigned. */
  predicate Refused(attributes: seq<TenantAttribute>, id: AttributeId) {
    exists i :: 0 <= i < |attributes| && FirstAt(attributes, id, i) && attributes[i].revocation.None?
  }

  lemma {:induction false} FirstIsSomewhere(attributes: seq<TenantAttribute>, id: AttributeId) returns (i: nat)
    requires Mentions(attributes, id)
    ensures FirstAt(attributes, id, i)
  {
    if attributes[0].CertifiedAttribute? && attributes[0].id == id {
      i := 0;
    } else {
      assert forall k :: 0 <= k < |attributes| - 1 ==> attributes[1..][k] == attributes[k + 1];
      i := FirstIsSomewhere(attributes[1..], id);
      i := i + 1;
    }
  }

  lemma RefusedByFirst(attributes: seq<TenantAttribute>, id: AttributeId)
    ensures Refused(attributes, id) <==>
              FirstCertified(attributes, id).Some? && FirstCertified(attributes, id).value.revocation.None?
    ensures Refused(attributes, id) <==> AssignOne(attributes, id).None?
  {
    FirstCertifiedExactly(attributes, id);
    if FirstCertified(attributes, id).Some? {
      var n :| 0 <= n < |attributes| && attributes[n].CertifiedAttribute? && attributes[n].id == id;
      var i := FirstIsSomewhere(attributes, id);
      FirstCertifiedIsFirst(attributes, id, i);
    }
    forall i | 0 <= i < |attributes| && FirstAt(attributes, id, i)
      ensures FirstCertified(attributes, id) == Some(attributes[i])
    {
      FirstCertifiedIsFirst(attributes, id, i);
    }
  }

  lemma {:induction false} FirstStays(attributes: seq<TenantAttribute>, id: AttributeId, other: AttributeId)
    requires other != id
    ensures FirstCertified(attributes + [CertifiedAttribute(id, None)], other) == FirstCertified(attributes, other)
    ensures FirstCertified(Unrevoked(attributes, id), other) == FirstCertified(attributes, other)
  {
    if attributes != [] {
      FirstStays(attributes[1..], id, other);
      assert (attributes + [CertifiedAttribute(id, None)])[1..] == attributes[1..] + [CertifiedAttribute(id, None)];
      assert Unrevoked(attributes, id)[1..] == Unrevoked(attributes[1..], id);
    }
  }

  /** Assigning one after the other is refused for the sake of one that is held from the start. */
  lemma {:induction false} AssignAllRefused(attributes: seq<TenantAttribute>, catalog: seq<PlatformAttribute>,
                                            keys: seq<AttributeKey>, other: AttributeId)
    requires IsCatalog(catalog)
    ensures AssignAll(attributes, catalog, keys).None? <==>
              exists p :: p in catalog && p.key in keys && Refused(attributes, p.id)
    ensures AssignAll(attributes, catalog, keys).Some? && (forall p :: p in catalog ==> p.id != other) ==>
              FirstCertified(AssignAll(attributes, catalog, keys).value, other) == FirstCertified(attributes, other)
  {
    if catalog != [] {
      var before, p := catalog[..|catalog| - 1], catalog[|catalog| - 1];
      assert forall q :: q in catalog <==> q in before || q == p;
      AssignAllRefused(attributes, before, keys, other);
      AssignAllRefused(attributes, before, keys, p.id);
      if AssignAll(attributes, before, keys).Some? {
        var held := AssignAll(attributes, before, keys).value;
        RefusedByFirst(held, p.id);
        RefusedByFirst(attributes, p.id);
        if p.id != other {
          FirstStays(held, p.id, other);
        }
      }
    }
  }

  /** An assignment to one tenant is refused exactly for an unknown tenant, an attribute that the platform
      does not know, or one that the tenant holds; no other tenant is touched. */
  lemma UpsertRefused(m: Registry, catalog: seq<PlatformAttribute>, a: Assignment)
    requires IsCatalog(catalog)
    ensures Upsert(m, catalog, a).None? <==>
              || a.externalId !in m
              || (exists k :: k in a.attributes && !exists p :: p in catalog && p.key == k)
              || exists p :: p in catalog && p.key in a.attributes && Refused(m[a.externalId], p.id)
    ensures Upsert(m, catalog, a).Some? ==> Upsert(m, catalog, a).value - {a.externalId} == m - {a.externalId}
  {
    if a.externalId in m {
      AssignAllRefused(m[a.externalId], catalog, a.attributes, AttributeId(""));
    }
  }

  /* ---- the importer's loops over the tenant service ---- */

  /** The tenants as the tenant service keeps them. */
  class TenantService {
    var tenants: Registry
    const attributes: seq<PlatformAttribute>

    constructor (tenants: Registry, attributes: seq<PlatformAttribute>)
      ensures this.tenants == tenants && this.attributes == attributes
    {
      this.tenants, this.attributes := tenants, attributes;
    }

    /** An unknown tenant, an unknown attribute or one that is held already is an error. */
    method UpsertTenant(a: Assignment) returns (ok: bool)
      modifies this
      ensures if ok then Upsert(old(tenants), attributes, a) == Some(tenants)
              else Upsert(old(tenants), attributes, a) == None && tenants == old(tenants)
    {
      if a.externalId !in tenants || exists k :: k in a.attributes && !Known(attributes, k) { return false; }
      var updated := AssignAll(tenants[a.externalId], attributes, a.attributes);
      if updated.None? { return false; }
      tenants := tenants[a.externalId := updated.value];
      return true;
    }

    method RevokeAttribute(r: Revocation, now: int) returns (ok: bool)
      modifies this
      ensures if ok then Revoke(old(tenants), attributes, r, now) == Some(tenants)
              else Revoke(old(tenants), attributes, r, now) == None && tenants == old(tenants)
    {
      if r.externalId !in tenants { return false; }
      var id := IdOf(attributes, r.attribute);
      if id.None? { return false; }
      var held := FirstCertified(tenants[r.externalId], id.value);
      if held.None? { return false; }
      tenants := tenants[r.externalId := Revoked(tenants[r.externalId], id.value, now)];
      return true;
    }
  }

  /** Calls before the first failure stay done. */
  method AssignNewAttributes(service: TenantService, assignments: seq<Assignment>) returns (ok: bool, done: nat)
    modifies service
    ensures done <= |assignments|
            && UpsertAll(old(service.tenants), service.attributes, assignments[..done]) == Some(service.tenants)
    ensures ok <==> done == |assignments|
    ensures !ok ==> Upsert(service.tenants, service.attributes, assignments[done]) == None
  {
    done := 0;
    while done < |assignments|
      invariant done <= |assignments|
                && UpsertAll(old(service.tenants), service.attributes, assignments[..done]) == Some(service.tenants)
    {
      ok := service.UpsertTenant(assignments[done]);
      if !ok { return; }
      assert assignments[..done + 1][..done] == assignments[..done];
      done := done + 1;
    }
    ok := true;
  }

  method RevokeAttributes(service: TenantService, revocations: seq<Revocation>, now: int) returns (ok: bool, done: nat)
    modifies service
    ensures done <= |revocations|
            && RevokeEach(old(service.tenants), service.attributes, revocations[..done], now) == Some(service.tenants)
    ensures ok <==> done == |revocations|
    ensures !ok ==> Revoke(service.tenants, service.attributes, revocations[done], now) == None
  {
    done := 0;
    while done < |revocations|
      invariant done <= |revocations|
                && RevokeEach(old(service.tenants), service.attributes, revocations[..done], now)
                     == Some(service.tenants)
    {
      ok := service.RevokeAttribute(revocations[done], now);
      if !ok { return; }
      assert revocations[..done + 1][..done] == revocations[..done];
      done := done + 1;
    }
    ok := true;
  }

  lemma {:induction false} EachUpsertSucceeds(m: Registry, catalog: seq<PlatformAttribute>,
                                              assignments: seq<Assignment>, n: nat)
    requires n < |assignments| && UpsertAll(m, catalog, assignments).Some?
    ensures var before := UpsertAll(m, catalog, assignments[..n]);
            before.Some? && Upsert(before.value, catalog, assignments[n]).Some?
  {
    if n < |assignments| - 1 {
      assert assignments[..|assignments| - 1][..n] == assignments[..n];
      EachUpsertSucceeds(m, catalog, assignments[..|assignments| - 1], n);
    }
  }

  lemma {:induction false} EachRevokeSucceeds(m: Registry, catalog: seq<PlatformAttribute>,
                                              revocations: seq<Revocation>, now: int, n: nat)
    requires n < |revocations| && RevokeEach(m, catalog, revocations, now).Some?
    ensures var before := RevokeEach(m, catalog, revocations[..n], now);
            before.Some? && Revoke(before.value, catalog, revocations[n], now).Some?
  {
    if n < |revocations| - 1 {
      assert revocations[..|revocations| - 1][..n] == revocations[..n];
      EachRevokeSucceeds(m, catalog, revocations[..|revocations| - 1], now, n);
    }
  }

  /** The import, once the missing attributes exist: it runs to its end and leaves each public tenant
      with the attributes that the registry lists for it. */
  method Import(service: TenantService, cfg: Config, institutions: seq<Institution>, registry: seq<AttributeKey>,
                tenants: seq<PublicTenant>,
                before: seq<PlatformAttribute>, now: int) returns (ok: bool)
    requires Reads(service.tenants, tenants, before, service.attributes)
    requires Published(cfg, institutions, registry, tenants, before, service.attributes)
    modifies service
    ensures ok && service.tenants.Keys == old(service.tenants).Keys
    ensures forall t, k: AttributeKey :: t in tenants && k.origin == IPA ==>
              (Holds(service.tenants[t.externalId], service.attributes, k) <==>
               Lists(cfg, institutions, t.externalId, k))
    ensures forall t, k: AttributeKey :: t in tenants && k.origin != IPA ==>
              (Holds(service.tenants[t.externalId], service.attributes, k) <==>
               Holds(t.attributes, service.attributes, k))
    ensures forall x :: x in old(service.tenants) && !HasTenant(tenants, x) ==>
              Lookup(service.tenants, x) == Some(old(service.tenants)[x])
  {
    ghost var m := service.tenants;
    ImportMatchesRegistry(cfg, institutions, registry, m, tenants, before, service.attributes, now);
    var seeds := TenantSeeds(cfg, institutions, tenants);
    var assignments, revocations := ToAssign(tenants, before, seeds), ToRevoke(seeds, tenants, before);
    var done;
    ok, done := AssignNewAttributes(service, assignments);
    if done < |assignments| {
      EachUpsertSucceeds(m, service.attributes, assignments, done);
      assert false;
    }
    assert assignments[..done] == assignments;
    ghost var given := service.tenants;
    ok, done := RevokeAttributes(service, revocations, now);
    if done < |revocations| {
      EachRevokeSucceeds(given, service.attributes, revocations, now, done);
      assert false;
    }
    assert revocations[..done] == revocations;
  }
}
