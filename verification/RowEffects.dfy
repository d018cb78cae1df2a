/** A plan's effect on one row of platform-states. */
module RowEffects {
  import opened Wrappers
  import opened Domain
  import opened Tables
  import opened Effects

  function OnPurposeRow(p: PurposeId, row: Option<PurposeRow>, f: Effect): Option<PurposeRow> {
    match f
    case PutPurpose(q, written) => if q == p then Some(written) else row
    case DropPurpose(q) => if q == p then None else row
    case _ => row
  }

  function OnAgreementRow(k: AgreementKey, row: Option<AgreementRow>, f: Effect): Option<AgreementRow> {
    match f
    case PutAgreement(l, written) => if l == k then Some(written) else row
    case _ => row
  }

  function OnCatalogRow(d: DescriptorKey, row: Option<CatalogRow>, f: Effect): Option<CatalogRow> {
    match f
    case PutDescriptor(k, written) => if k == d then Some(written) else row
    case DropDescriptor(k) => if k == d then None else row
    case _ => row
  }

  function PlanOnPurposeRow(p: PurposeId, row: Option<PurposeRow>, plan: Plan): Option<PurposeRow> {
    OnPurposeRow(p, OnPurposeRow(p, OnPurposeRow(p, OnPurposeRow(p, row, plan.first), plan.second), plan.third),
                 plan.fourth)
  }

  function PlanOnAgreementRow(k: AgreementKey, row: Option<AgreementRow>, plan: Plan): Option<AgreementRow> {
    OnAgreementRow(k, OnAgreementRow(k, OnAgreementRow(k, OnAgreementRow(k, row, plan.first), plan.second), plan.third),
                   plan.fourth)
  }

  function PlanOnCatalogRow(d: DescriptorKey, row: Option<CatalogRow>, plan: Plan): Option<CatalogRow> {
    OnCatalogRow(d, OnCatalogRow(d, OnCatalogRow(d, OnCatalogRow(d, row, plan.first), plan.second), plan.third),
                 plan.fourth)
  }

  lemma EffectOnRows(s: Store, f: Effect, p: PurposeId, k: AgreementKey, d: DescriptorKey)
    ensures Lookup(Apply(s, f).rows.purposes, p) == OnPurposeRow(p, Lookup(s.rows.purposes, p), f)
    ensures Lookup(Apply(s, f).rows.agreements, k) == OnAgreementRow(k, Lookup(s.rows.agreements, k), f)
    ensures Lookup(Apply(s, f).rows.descriptors, d) == OnCatalogRow(d, Lookup(s.rows.descriptors, d), f)
  {
  }

  lemma RunOnRows(s: Store, plan: Plan, p: PurposeId, k: AgreementKey, d: DescriptorKey)
    ensures Lookup(Run(s, plan).rows.purposes, p) == PlanOnPurposeRow(p, Lookup(s.rows.purposes, p), plan)
    ensures Lookup(Run(s, plan).rows.agreements, k) == PlanOnAgreementRow(k, Lookup(s.rows.agreements, k), plan)
    ensures Lookup(Run(s, plan).rows.descriptors, d) == PlanOnCatalogRow(d, Lookup(s.rows.descriptors, d), plan)
  {
    var s1 := Apply(s, plan.first);
    var s2 := Apply(s1, plan.second);
    EffectOnRows(s, plan.first, p, k, d);
    EffectOnRows(s1, plan.second, p, k, d);
    EffectOnRows(s2, plan.third, p, k, d);
    EffectOnRows(Apply(s2, plan.third), plan.fourth, p, k, d);
  }

  /** The table with one row of a kind and no other. */
  function PurposeAlone(p: PurposeId, row: Option<PurposeRow>): Rows {
    NO_ROWS.(purposes := if row.Some? then map[p := row.value] else map[])
  }

  function AgreementAlone(k: AgreementKey, row: Option<AgreementRow>): Rows {
    NO_ROWS.(agreements := if row.Some? then map[k := row.value] else map[])
  }

  function CatalogAlone(d: DescriptorKey, row: Option<CatalogRow>): Rows {
    NO_ROWS.(descriptors := if row.Some? then map[d := row.value] else map[])
  }
}
